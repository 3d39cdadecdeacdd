/**
 An online validation from beginning to end, with other operations running between any two of its
 lock-held segments.
 */
module Validation {
  import opened Wrappers
  import opened Saturating
  import opened StateMachine
  import opened Artifacts
  import opened Chain
  import opened Ticket
  import opened Client
  import opened ClientInvariant
  import opened ClientRuntime
  import opened Revocations

  datatype ValidateResult = Succeeded | Unavailable(transient: TransientError) | Failed(error: ClientError)

  /** What runs before a segment, and the clock and the store it then meets. */
  datatype Moment = Moment(others: seq<Turn>, now: I64, saved: bool, wiped: bool)

  datatype Reply = NoReply(transient: TransientError) | BadReply(fatal: FatalError) | Artifact(encoded: Bytes)

  datatype Fetched = NoKeyset(transient: TransientError) | BadKeyset(fatal: FatalError) | Fetched(keyset: Keyset)

  /** Everything the operation meets on its way. */
  datatype Surroundings = Surroundings(
    built: bool, reply: Reply, keyset: Fetched, moments: nat -> Moment,
    refreshing: nat -> Pass, catchingUp: nat -> Pass)

  ghost predicate Orderly(h: Host, w: Surroundings) {
    && (forall i: nat, j: nat :: j < |w.moments(i).others| ==> TurnComparable(h, w.moments(i).others[j]))
    && (forall i: nat :: Calm(h, w.refreshing(i))) && (forall i: nat :: Calm(h, w.catchingUp(i)))
  }

  /** The moment of each segment. */
  const BEGIN: nat := 0
  const GIVE_UP: nat := 1
  const LOOK: nat := 2
  const INSTALL: nat := 3
  const READ: nat := 4
  const COMMIT: nat := 5

  /** The clock difference asked for by a ticket in the reply is representable. */
  ghost predicate ReplyComparable(h: Host, w: Surroundings) {
    w.reply.Artifact? && h.suite.decodeEnvelope(w.reply.encoded).Some? ==>
      TicketComparable(h, h.suite.decodeEnvelope(w.reply.encoded).value, w.moments(READ).now)
  }

  /** The envelope in the reply, if there is one. */
  function ReplyEnvelope(h: Host, w: Surroundings): Option<Envelope> {
    if w.reply.Artifact? then h.suite.decodeEnvelope(w.reply.encoded) else None
  }

  // ----- what a committed ticket means

  /**
   A ticket put into effect: the watermark when it was first read, the pages applied since, and what
   the client was when it met the ticket again.
   */
  datatype Committed = Committed(from: U64, pages: seq<Applied>, met: Runtime, ticket: ValidationTicket)

  /**
   The ticket answers this request, for this machine, moves no watermark back; and the client that
   met it knew every revocation up to exactly the epoch the ticket speaks of.
   */
  ghost predicate WellMet(h: Host, env: Envelope, nonce: Nonce, now: I64, c: Committed) {
    && Inv(c.met) && c.met.credential.Some?
    && OpenTicket(h, c.met, c.met.credential.value, env, nonce, now) == Ok(c.ticket)
    && c.ticket.nonceEcho == nonce && c.ticket.machineId == c.met.credential.value.machineId
    && c.ticket.securityFloor >= c.met.maxSecurityFloor
    && c.ticket.revocationEpoch == c.met.maxRevocationEpoch
  }

  /** The pages applied in between: in order, none naming what was held, gapless beside bystanders. */
  ghost predicate CaughtUp(c: Committed, alone: bool) {
    && InOrder(c.pages, c.from, c.ticket.revocationEpoch)
    && (forall a :: a in c.pages ==> !Names(a.batch, a.held))
    && (alone ==> Tiles(c.pages, c.from, c.ticket.revocationEpoch))
  }

  /** What commits: the ticket is recorded, and its verdict and the store decide the result. */
  function Recorded(c: Committed, encoded: Bytes, now: I64, saved: bool): Step
    requires c.met.credential.Some?
  {
    RecordTicket(ClockObserved(c.met, c.ticket.serverTime), c.met.credential.value, c.ticket, encoded, now, saved)
  }

  lemma TicketMet(h: Host, r: Runtime, env: Envelope, nonce: Nonce, now: I64)
    requires r.credential.Some? && OpenTicket(h, r, r.credential.value, env, nonce, now).Ok?
    ensures var t := OpenTicket(h, r, r.credential.value, env, nonce, now).value;
            && h.suite.decodeTicket(env.tbs) == Some(t)
            && t.nonceEcho == nonce && t.machineId == r.credential.value.machineId
            && t.securityFloor >= r.maxSecurityFloor && t.revocationEpoch >= r.maxRevocationEpoch
  {
    var t := OpenTicket(h, r, r.credential.value, env, nonce, now).value;
    AcceptedTicket(t, ChecksFor(h, r, r.credential.value, env, nonce));
  }

  /** Success is a good verdict, saved. */
  lemma RecordedOk(c: Committed, encoded: Bytes, now: I64, saved: bool)
    requires c.met.credential.Some? && Recorded(c, encoded, now, saved).result.Ok?
    ensures c.ticket.verdict.VerdictOk? && saved
  {
  }

  /** Everything there is to say about a ticket that was put into effect. */
  ghost predicate Committing(h: Host, w: Surroundings, encoded: Bytes, env: Envelope, nonce: Nonce, next: Runtime,
                             r: ValidateResult, c: Committed)
  {
    var now, saved := w.moments(READ).now, w.moments(COMMIT).saved;
    && WellMet(h, env, nonce, now, c) && CaughtUp(c, forall i: nat :: Alone(w.catchingUp(i)))
    && next == Recorded(c, encoded, now, saved).runtime && r == ResultOf(Recorded(c, encoded, now, saved).result)
    && (r.Succeeded? ==> c.ticket.verdict.VerdictOk? && saved)
  }

  /** Nothing is left on the client or in its store. */
  predicate Emptied(r: Runtime) {
    Bare(r) && r.store.None?
  }

  /** A fatal result means that nothing is left. */
  predicate FailsClosed(r: ValidateResult, next: Runtime) {
    r.Failed? && r.error.Fatal? ==> Bare(next)
  }

  /** How an operation that succeeded did: by a ticket, or by obeying a kill order. */
  ghost predicate Concluded(h: Host, w: Surroundings, encoded: Bytes, env: Envelope, nonce: Nonce, next: Runtime,
                            r: ValidateResult, commit: Option<Committed>)
  {
    if commit.Some? then Committing(h, w, encoded, env, nonce, next, r, commit.value)
    else r.Succeeded? ==> Emptied(next)
  }

  function ResultOf(r: Result<(), ClientError>): ValidateResult {
    if r.Ok? then Succeeded else Failed(r.error)
  }

  // ----- the stages

  /** A stage failed: note a transient failure, fail closed on a fatal one, pass on the rest. */
  method Resolve(g: Guarded, h: Host, m: Moment, error: ClientError) returns (r: ValidateResult)
    requires Inv(g.Value()) && forall j :: 0 <= j < |m.others| ==> TurnComparable(h, m.others[j])
    modifies g, g.machine, g.machine.clock, g.chain
    ensures Inv(g.Value()) && Forward(old(g.Value()), g.Value()) && r == Failed(error)
    ensures if error.Fatal? then Bare(g.Value()) else g.Value() == old(g.Value())
    ensures g.chain == null || g.chain == old(g.chain) || fresh(g.chain)
  {
    if !error.Fatal? {
      return Failed(error);
    }
    Others(g, h, m.others);
    KeptErased(g.Value(), VerificationFailed(error.fatal), m.now, m.wiped);
    var failed := g.FailClosedLocked(error.fatal, m.now, m.wiped);
    return Failed(error);
  }

  method ResolveTransient(g: Guarded, h: Host, m: Moment, error: TransientError) returns (r: ValidateResult)
    requires Inv(g.Value()) && forall j :: 0 <= j < |m.others| ==> TurnComparable(h, m.others[j])
    modifies g, g.machine, g.machine.clock, g.chain
    ensures Inv(g.Value()) && Forward(old(g.Value()), g.Value())
    ensures r == Unavailable(error) || r == Failed(Local)
    ensures g.chain == null || g.chain == old(g.chain) || fresh(g.chain)
  {
    Others(g, h, m.others);
    KeptTransientFailure(g.Value(), error, m.now, m.saved);
    var noted := g.ApplyTransientFailure(error, m.now, m.saved);
    return if noted.Ok? then Unavailable(error) else Failed(noted.error);
  }

  method ResolveSync(g: Guarded, h: Host, m: Moment, result: SyncResult) returns (r: ValidateResult)
    requires Inv(g.Value()) && forall j :: 0 <= j < |m.others| ==> TurnComparable(h, m.others[j])
    requires !result.Synced?
    modifies g, g.machine, g.machine.clock, g.chain
    ensures Inv(g.Value()) && Forward(old(g.Value()), g.Value()) && !r.Succeeded?
    ensures FailsClosed(r, g.Value())
    ensures g.chain == null || g.chain == old(g.chain) || fresh(g.chain)
  {
    if result.SyncTransient? {
      r := ResolveTransient(g, h, m, result.transient);
    } else {
      r := Resolve(g, h, m, result.error);
    }
  }

  /** Sync up to `target`, or say how the operation ends. */
  method CatchUp(g: Guarded, h: Host, target: U64, world: nat -> Pass, m: Moment)
    returns (stopped: Option<ValidateResult>, ghost pages: seq<Applied>)
    requires Inv(g.Value()) && (forall i: nat :: Calm(h, world(i)))
    requires forall j :: 0 <= j < |m.others| ==> TurnComparable(h, m.others[j])
    modifies g, g.machine, g.machine.clock, g.chain
    ensures Inv(g.Value()) && Forward(old(g.Value()), g.Value()) && stopped != Some(Succeeded)
    ensures stopped.Some? ==> FailsClosed(stopped.value, g.Value())
    ensures stopped.None? ==> g.maxRevocationEpoch == target && InOrder(pages, old(g.maxRevocationEpoch), target)
    ensures stopped.None? ==> forall a :: a in pages ==> !Names(a.batch, a.held)
    ensures stopped.None? && (forall i: nat :: Alone(world(i))) ==> Tiles(pages, old(g.maxRevocationEpoch), target)
    ensures g.chain == null || g.chain == old(g.chain) || fresh(g.chain)
  {
    var synced;
    synced, pages := SyncRevocations(g, h, target, world);
    if synced.Synced? {
      return None, pages;
    }
    var r := ResolveSync(g, h, m, synced);
    return Some(r), pages;
  }

  method Install(g: Guarded, h: Host, m: Moment, keyset: Keyset)
    returns (r: Result<(), ClientError>, ghost met: Runtime)
    requires Inv(g.Value()) && forall j :: 0 <= j < |m.others| ==> TurnComparable(h, m.others[j])
    modifies g, g.machine, g.machine.clock, g.chain
    ensures Inv(g.Value()) && Forward(old(g.Value()), g.Value())
    ensures InstallKeyset(h, met, keyset, m.now) == Step(g.Value(), r)
    ensures g.chain == null || g.chain == old(g.chain) || fresh(g.chain)
  {
    Others(g, h, m.others);
    met := g.Value();
    KeptInstallKeyset(h, met, keyset, m.now);
    r := g.InstallFetchedKeyset(h, keyset, m.now);
  }

  /** The keyset went onto the client that `met` was, and everything since went forward from there. */
  ghost predicate Refreshed(h: Host, met: Runtime, keyset: Keyset, now: I64, next: Runtime) {
    && InstallKeyset(h, met, keyset, now).result.Ok? && Forward(InstallKeyset(h, met, keyset, now).runtime, next)
    && next.maxRevocationEpoch == keyset.revocationEpoch
  }

  /** Install a fetched keyset and sync up to the revocations it speaks of. */
  method InstallAndSync(g: Guarded, h: Host, w: Surroundings, keyset: Keyset)
    returns (stopped: Option<ValidateResult>, ghost met: Runtime)
    requires Inv(g.Value()) && Orderly(h, w)
    modifies g, g.machine, g.machine.clock, g.chain
    ensures Inv(g.Value()) && Forward(old(g.Value()), g.Value()) && stopped != Some(Succeeded)
    ensures if stopped.Some? then FailsClosed(stopped.value, g.Value())
            else Refreshed(h, met, keyset, w.moments(INSTALL).now, g.Value())
    ensures g.chain == null || g.chain == old(g.chain) || fresh(g.chain)
  {
    var installed;
    installed, met := Install(g, h, w.moments(INSTALL), keyset);
    if installed.Err? {
      var r := Resolve(g, h, w.moments(GIVE_UP), installed.error);
      return Some(r), met;
    }
    ghost var pages;
    stopped, pages := CatchUp(g, h, keyset.revocationEpoch, w.refreshing, w.moments(GIVE_UP));
  }

  /**
   The keyset and the revocations behind it, when the client does not know the epoch of the reply.
   Going on means that the epoch is known, or that the fetched keyset was installed and caught up with.
   */
  method Refresh(g: Guarded, h: Host, w: Surroundings, epoch: EpochId)
    returns (stopped: Option<ValidateResult>, ghost met: Option<Runtime>)
    requires Inv(g.Value()) && Orderly(h, w)
    modifies g, g.machine, g.machine.clock, g.chain
    ensures Inv(g.Value()) && Forward(old(g.Value()), g.Value()) && stopped != Some(Succeeded)
    ensures stopped.Some? ==> FailsClosed(stopped.value, g.Value())
    ensures stopped.None? && met.None? ==> g.chain != null && exists e :: e in g.chain.epochs && e.cert.epochId == epoch
    ensures stopped.None? && met.Some? ==>
              w.keyset.Fetched? && Refreshed(h, met.value, w.keyset.keyset, w.moments(INSTALL).now, g.Value())
    ensures g.chain == null || g.chain == old(g.chain) || fresh(g.chain)
  {
    met := None;
    Others(g, h, w.moments(LOOK).others);
    if g.chain != null && Lookup(g.chain.epochs, epoch).Some? {
      return None, met;
    }
    match w.keyset {
      case NoKeyset(e) =>
        var r := ResolveTransient(g, h, w.moments(GIVE_UP), e);
        return Some(r), met;
      case BadKeyset(e) =>
        var r := Resolve(g, h, w.moments(GIVE_UP), Fatal(e));
        return Some(r), met;
      case Fetched(keyset) =>
        ghost var at;
        stopped, at := InstallAndSync(g, h, w, keyset);
        met := Some(at);
    }
  }

  /** The last lock: the ticket is verified and checked again, against the state as it then is. */
  method CommitMet(g: Guarded, h: Host, encoded: Bytes, env: Envelope, nonce: Nonce, now: I64, saved: bool, wiped: bool,
                   ghost from: U64, ghost pages: seq<Applied>, ghost target: U64)
    returns (r: ValidateResult, ghost commit: Option<Committed>)
    requires Inv(g.Value()) && TicketComparable(h, env, now) && target <= g.maxRevocationEpoch
    requires h.suite.decodeTicket(env.tbs).Some? && h.suite.decodeTicket(env.tbs).value.revocationEpoch == target
    modifies g, g.machine, g.machine.clock, g.chain
    ensures Inv(g.Value()) && Forward(old(g.Value()), g.Value())
    ensures commit.None? ==> !r.Succeeded?
    ensures FailsClosed(r, g.Value())
    ensures commit.Some? ==>
              && commit.value.from == from && commit.value.pages == pages && commit.value.met == old(g.Value())
              && WellMet(h, env, nonce, now, commit.value) && commit.value.ticket.revocationEpoch == target
              && g.Value() == Recorded(commit.value, encoded, now, saved).runtime
              && r == ResultOf(Recorded(commit.value, encoded, now, saved).result)
              && (r.Succeeded? ==> commit.value.ticket.verdict.VerdictOk? && saved)
  {
    ghost var met := g.Value();
    KeptCommitTicket(h, met, encoded, env, nonce, now, saved, wiped);
    var result := g.Commit(h, encoded, env, nonce, now, saved, wiped);
    commit := None;
    r := ResultOf(result);
    if met.credential.Some? && OpenTicket(h, met, met.credential.value, env, nonce, now).Ok? {
      TicketMet(h, met, env, nonce, now);
      commit := Some(Committed(from, pages, met, OpenTicket(h, met, met.credential.value, env, nonce, now).value));
      if result.Ok? {
        RecordedOk(commit.value, encoded, now, saved);
      }
    }
  }

  /** The first look at the ticket, on a copy of the clock. */
  method Look(g: Guarded, h: Host, m: Moment, env: Envelope, nonce: Nonce) returns (r: Result<U64, ClientError>)
    requires Inv(g.Value()) && TicketComparable(h, env, m.now)
    requires forall j :: 0 <= j < |m.others| ==> TurnComparable(h, m.others[j])
    modifies g, g.machine, g.machine.clock, g.chain
    ensures Inv(g.Value()) && Forward(old(g.Value()), g.Value())
    ensures r.Ok? ==>
              && h.suite.decodeTicket(env.tbs).Some?
              && r.value == h.suite.decodeTicket(env.tbs).value.revocationEpoch
    ensures r.Err? ==> FailsClosed(Failed(r.error), g.Value())
    ensures g.chain == null || g.chain == old(g.chain) || fresh(g.chain)
  {
    Others(g, h, m.others);
    ghost var met := g.Value();
    KeptPreviewTicket(h, met, env, nonce, m.now, m.wiped);
    var seen := g.Preview(h, env, nonce, m.now, m.wiped);
    if seen.Err? {
      return Err(seen.error);
    }
    TicketMet(h, met, env, nonce, m.now);
    return Ok(h.suite.decodeTicket(env.tbs).value.revocationEpoch);
  }

  method CommitLater(g: Guarded, h: Host, m: Moment, encoded: Bytes, env: Envelope, nonce: Nonce, now: I64,
                     ghost from: U64, ghost pages: seq<Applied>, ghost target: U64)
    returns (r: ValidateResult, ghost commit: Option<Committed>)
    requires Inv(g.Value()) && TicketComparable(h, env, now) && target <= g.maxRevocationEpoch
    requires forall j :: 0 <= j < |m.others| ==> TurnComparable(h, m.others[j])
    requires h.suite.decodeTicket(env.tbs).Some? && h.suite.decodeTicket(env.tbs).value.revocationEpoch == target
    modifies g, g.machine, g.machine.clock, g.chain
    ensures Inv(g.Value()) && Forward(old(g.Value()), g.Value())
    ensures commit.None? ==> !r.Succeeded?
    ensures FailsClosed(r, g.Value())
    ensures commit.Some? ==>
              && commit.value.from == from && commit.value.pages == pages
              && WellMet(h, env, nonce, now, commit.value) && commit.value.ticket.revocationEpoch == target
              && g.Value() == Recorded(commit.value, encoded, now, m.saved).runtime
              && r == ResultOf(Recorded(commit.value, encoded, now, m.saved).result)
              && (r.Succeeded? ==> commit.value.ticket.verdict.VerdictOk? && m.saved)
  {
    Others(g, h, m.others);
    r, commit := CommitMet(g, h, encoded, env, nonce, now, m.saved, m.wiped, from, pages, target);
  }

  /** A ticket: look at it, catch up with the revocations it speaks of, commit it. */
  method TakeTicket(g: Guarded, h: Host, w: Surroundings, encoded: Bytes, env: Envelope, nonce: Nonce)
    returns (r: ValidateResult, ghost commit: Option<Committed>)
    requires Inv(g.Value()) && Orderly(h, w) && TicketComparable(h, env, w.moments(READ).now)
    modifies g, g.machine, g.machine.clock, g.chain
    ensures Inv(g.Value()) && Forward(old(g.Value()), g.Value())
    ensures commit.None? ==> !r.Succeeded?
    ensures FailsClosed(r, g.Value())
    ensures commit.Some? ==> Committing(h, w, encoded, env, nonce, g.Value(), r, commit.value)
  {
    commit := None;
    var seen := Look(g, h, w.moments(READ), env, nonce);
    if seen.Err? {
      return Failed(seen.error), commit;
    }
    ghost var from := g.maxRevocationEpoch;
    var stopped, pages := CatchUp(g, h, seen.value, w.catchingUp, w.moments(GIVE_UP));
    if stopped.Some? {
      return stopped.value, commit;
    }
    r, commit := CommitLater(g, h, w.moments(COMMIT), encoded, env, nonce, w.moments(READ).now, from, pages,
                             seen.value);
  }

  /** A kill order is obeyed; whatever else came is fatal. */
  method TakeOrder(g: Guarded, h: Host, m: Moment, env: Envelope, nonce: Nonce) returns (r: ValidateResult)
    requires Inv(g.Value()) && forall j :: 0 <= j < |m.others| ==> TurnComparable(h, m.others[j])
    modifies g, g.machine, g.machine.clock, g.chain
    ensures Inv(g.Value()) && Forward(old(g.Value()), g.Value())
    ensures FailsClosed(r, g.Value()) && (r.Succeeded? ==> Emptied(g.Value()))
  {
    if env.kind != KillOrderKind {
      r := Resolve(g, h, m, Fatal(CredentialCorrupt));
      return;
    }
    Others(g, h, m.others);
    KeptApplyKillOrder(h, g.Value(), env, nonce, m.now, m.wiped);
    var result := g.Kill(h, env, nonce, m.now, m.wiped);
    return ResultOf(result);
  }

  method Begin(g: Guarded, h: Host, m: Moment, built: bool) returns (r: ValidateResult)
    requires Inv(g.Value()) && forall j :: 0 <= j < |m.others| ==> TurnComparable(h, m.others[j])
    modifies g, g.machine, g.machine.clock, g.chain
    ensures Inv(g.Value()) && Forward(old(g.Value()), g.Value())
    ensures built ==> FailsClosed(r, g.Value())
    ensures g.chain == null || g.chain == old(g.chain) || fresh(g.chain)
  {
    Others(g, h, m.others);
    KeptBeginValidate(g.Value(), m.now, built);
    var begun := g.StartValidation(m.now, built);
    return ResultOf(begun);
  }

  method TakeReply(g: Guarded, h: Host, w: Surroundings, encoded: Bytes, env: Envelope, nonce: Nonce)
    returns (r: ValidateResult, ghost commit: Option<Committed>)
    requires Inv(g.Value()) && Orderly(h, w) && TicketComparable(h, env, w.moments(READ).now)
    modifies g, g.machine, g.machine.clock, g.chain
    ensures Inv(g.Value()) && Forward(old(g.Value()), g.Value())
    ensures Concluded(h, w, encoded, env, nonce, g.Value(), r, commit)
    ensures env.epochRef.Some? ==> FailsClosed(r, g.Value())
  {
    commit := None;
    if env.epochRef.None? {
      return Failed(Fatal(ChainInvalid)), commit;
    }
    var stopped, met := Refresh(g, h, w, env.epochRef.value);
    if stopped.Some? {
      return stopped.value, commit;
    }
    if env.kind == TicketKind {
      r, commit := TakeTicket(g, h, w, encoded, env, nonce);
    } else {
      r := TakeOrder(g, h, w.moments(READ), env, nonce);
    }
  }

  // ----- the operation

  /**
   `validate`. Whatever the server answers and whatever else runs in between, the client stays
   coherent and moves only forward. Success means that a good ticket was committed, saved and well
   met, or that a kill order emptied the client. A fatal result leaves nothing behind, unless the
   request could not be built or the reply names no epoch.
   */
  method Validate(g: Guarded, h: Host, nonce: Nonce, w: Surroundings)
    returns (r: ValidateResult, ghost commit: Option<Committed>)
    requires Inv(g.Value()) && Orderly(h, w) && ReplyComparable(h, w)
    modifies g, g.machine, g.machine.clock, g.chain
    ensures Inv(g.Value()) && Forward(old(g.Value()), g.Value())
    ensures r.Succeeded? || commit.Some? ==>
              && w.reply.Artifact? && h.suite.decodeEnvelope(w.reply.encoded).Some?
              && Concluded(h, w, w.reply.encoded, h.suite.decodeEnvelope(w.reply.encoded).value, nonce, g.Value(), r,
                           commit)
    ensures w.built && (ReplyEnvelope(h, w).Some? ==> ReplyEnvelope(h, w).value.epochRef.Some?) ==>
              FailsClosed(r, g.Value())
  {
    commit := None;
    r := Begin(g, h, w.moments(BEGIN), w.built);
    if !r.Succeeded? {
      return;
    }
    if w.reply.Artifact? && h.suite.decodeEnvelope(w.reply.encoded).Some? {
      var env := h.suite.decodeEnvelope(w.reply.encoded).value;
      r, commit := TakeReply(g, h, w, w.reply.encoded, env, nonce);
    } else {
      r := NoEnvelope(g, h, w.moments(GIVE_UP), w.reply);
    }
  }

  /** No reply, or none that reads as an envelope. */
  method NoEnvelope(g: Guarded, h: Host, m: Moment, reply: Reply) returns (r: ValidateResult)
    requires Inv(g.Value()) && forall j :: 0 <= j < |m.others| ==> TurnComparable(h, m.others[j])
    modifies g, g.machine, g.machine.clock, g.chain
    ensures Inv(g.Value()) && Forward(old(g.Value()), g.Value()) && !r.Succeeded?
    ensures FailsClosed(r, g.Value())
  {
    match reply {
      case NoReply(e) => r := ResolveTransient(g, h, m, e);
      case BadReply(e) => r := Resolve(g, h, m, Fatal(e));
      case Artifact(_) => r := Resolve(g, h, m, Fatal(CredentialCorrupt));
    }
  }
}
