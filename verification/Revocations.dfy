/** Paging revocation batches up to a target while other operations run. */
module Revocations {
  import opened Wrappers
  import opened Saturating
  import opened StateMachine
  import opened Artifacts
  import opened Client
  import opened ClientInvariant
  import opened ClientRuntime

  datatype Response = Unreachable(transient: TransientError) | Refused(fatal: FatalError) | Page(envelope: Envelope)

  datatype SyncResult = Synced | SyncTransient(transient: TransientError) | SyncFailed(error: ClientError)

  /**
   What the surroundings do during one pass: other operations before and during the request, the
   answer, the clock, the store.
   */
  datatype Pass = Pass(before: seq<Turn>, during: seq<Turn>, response: Response, now: I64, saved: bool, wiped: bool)

  /** A page that took effect: the watermark it met, what it carried, and what the client held. */
  datatype Applied = Applied(at: U64, batch: RevocationBatch, held: Option<(LicenseId, MachineId, EpochId)>)

  ghost predicate Calm(h: Host, p: Pass) {
    && (forall i :: 0 <= i < |p.before| ==> TurnComparable(h, p.before[i]))
    && (forall i :: 0 <= i < |p.during| ==> TurnComparable(h, p.during[i]))
  }

  // ----- operations that leave the watermark alone

  /** Neither an installation, nor a ticket put into effect, nor another page. */
  predicate Bystander(t: Turn) {
    && !t.segment.SImportResponse? && !t.segment.SImportOlk? && !t.segment.SInstallActivation?
    && !t.segment.SCommitTicket? && !t.segment.SApplyBatch?
  }

  ghost predicate Bystanders(turns: seq<Turn>) {
    forall i :: 0 <= i < |turns| ==> Bystander(turns[i])
  }

  /** The same holdings, or none any more. */
  predicate SameOrGone(held: Option<(LicenseId, MachineId, EpochId)>, now: Option<(LicenseId, MachineId, EpochId)>) {
    now == held || now.None?
  }

  lemma ReaderStep(h: Host, r: Runtime, t: Turn)
    requires t.segment.SPreviewTicket? || t.segment.SApplyKillOrder?
    ensures var next := Execute(h, r, t).runtime;
            next.maxRevocationEpoch == r.maxRevocationEpoch && SameOrGone(HeldIds(r), HeldIds(next))
  {
  }

  /** A bystander does not move the watermark, and installs nothing. */
  lemma BystanderStep(h: Host, r: Runtime, t: Turn)
    requires Bystander(t)
    ensures var next := Execute(h, r, t).runtime;
            next.maxRevocationEpoch == r.maxRevocationEpoch && SameOrGone(HeldIds(r), HeldIds(next))
  {
    if t.segment.SPreviewTicket? || t.segment.SApplyKillOrder? {
      ReaderStep(h, r, t);
    }
  }

  lemma {:induction false} BystandersRun(h: Host, r: Runtime, turns: seq<Turn>)
    requires Bystanders(turns)
    ensures var next := Interleave(h, r, turns);
            next.maxRevocationEpoch == r.maxRevocationEpoch && SameOrGone(HeldIds(r), HeldIds(next))
  {
    if |turns| > 0 {
      BystandersRun(h, r, turns[..|turns| - 1]);
      BystanderStep(h, Interleave(h, r, turns[..|turns| - 1]), turns[|turns| - 1]);
    }
  }

  /** Whatever runs beside the pass is a bystander. */
  ghost predicate Alone(p: Pass) {
    Bystanders(p.before) && Bystanders(p.during)
  }

  // ----- pages

  /** Pages in order, each starting one past the watermark it met, none overlapping another. */
  ghost predicate InOrder(pages: seq<Applied>, start: nat, end: nat) {
    if |pages| == 0 then start <= end
    else
      var last := pages[|pages| - 1];
      && last.batch.fromEpoch == last.at + 1 && last.at < last.batch.toEpoch <= end
      && InOrder(pages[..|pages| - 1], start, last.at)
  }

  /** Pages that cover every epoch after `start` up to `end`, each exactly once and in order. */
  ghost predicate Tiles(pages: seq<Applied>, start: nat, end: nat) {
    if |pages| == 0 then start == end
    else
      var last := pages[|pages| - 1];
      && last.batch.fromEpoch == last.at + 1 && last.at < last.batch.toEpoch && last.batch.toEpoch == end
      && Tiles(pages[..|pages| - 1], start, last.at)
  }

  lemma {:induction false} InOrderWidens(pages: seq<Applied>, start: nat, end: nat, later: nat)
    requires InOrder(pages, start, end) && end <= later
    ensures InOrder(pages, start, later)
  {
  }

  /** Tiling means what it says: every epoch in the range belongs to exactly one page. */
  lemma {:induction false} TilesCover(pages: seq<Applied>, start: nat, end: nat, epoch: nat) returns (i: nat)
    requires Tiles(pages, start, end) && start < epoch <= end
    ensures i < |pages| && pages[i].batch.fromEpoch <= epoch <= pages[i].batch.toEpoch
    ensures forall j :: 0 <= j < |pages| && j != i ==> !(pages[j].batch.fromEpoch <= epoch <= pages[j].batch.toEpoch)
  {
    var n := |pages| - 1;
    var init := pages[..n];
    if epoch > pages[n].at {
      i := n;
      TilesBelow(init, start, pages[n].at);
    } else {
      i := TilesCover(init, start, pages[n].at, epoch);
      assert forall j :: 0 <= j < n ==> init[j] == pages[j];
    }
  }

  lemma {:induction false} TilesBelow(pages: seq<Applied>, start: nat, end: nat)
    requires Tiles(pages, start, end)
    ensures forall j :: 0 <= j < |pages| ==> start < pages[j].batch.fromEpoch && pages[j].batch.toEpoch <= end
    ensures start <= end
  {
    if |pages| > 0 {
      var n := |pages| - 1;
      TilesBelow(pages[..n], start, pages[n].at);
      assert forall j :: 0 <= j < n ==> pages[..n][j] == pages[j];
    }
  }

  /** One answered page either leaves the watermark alone or moves it from `current` to the end of a page that fits. */
  lemma PageOutcome(h: Host, r: Runtime, current: U64, target: U64, env: Envelope, now: I64, saved: bool, wiped: bool)
    requires Inv(r)
    ensures var step := ApplyBatch(h, r, current, target, env, now, saved, wiped);
            || (step.runtime.maxRevocationEpoch == r.maxRevocationEpoch && step.result.Err?)
            || (&& r.maxRevocationEpoch == current && OpenBatch(h, r, env, now).Ok?
                && BatchFits(h, OpenBatch(h, r, env, now).value, env, current + 1, target)
                && step.runtime.maxRevocationEpoch == OpenBatch(h, r, env, now).value.toEpoch
                && (step.result.Ok? ==>
                      && !Names(OpenBatch(h, r, env, now).value, HeldIds(r))
                      && HeldIds(step.runtime) == HeldIds(r)))
  {
  }

  /** Every page that took effect, in order; gapless when only bystanders ran beside. */
  ghost predicate Logged(pages: seq<Applied>, start: Runtime, now: Runtime, target: U64, alone: bool) {
    && InOrder(pages, start.maxRevocationEpoch, now.maxRevocationEpoch)
    && (forall a :: a in pages ==> a.batch.toEpoch <= target)
    && (alone ==> Tiles(pages, start.maxRevocationEpoch, now.maxRevocationEpoch))
  }

  /** No page named what the client held; and with bystanders only, it never held anything else. */
  ghost predicate Unnamed(pages: seq<Applied>, start: Runtime, now: Runtime, alone: bool) {
    && (forall a :: a in pages ==> !Names(a.batch, a.held))
    && (alone ==> SameOrGone(HeldIds(start), HeldIds(now)))
    && (alone ==> forall a :: a in pages ==> SameOrGone(HeldIds(start), a.held))
  }

  lemma LogPage(pages: seq<Applied>, page: Applied, start: Runtime, met: Runtime, next: Runtime, target: U64,
                alone: bool)
    requires Logged(pages, start, met, target, alone) && page.at == met.maxRevocationEpoch
    requires page.batch.fromEpoch == page.at + 1 && page.at < page.batch.toEpoch <= target
    requires next.maxRevocationEpoch == page.batch.toEpoch
    ensures Logged(pages + [page], start, next, target, alone)
  {
    assert (pages + [page])[..|pages|] == pages;
  }

  lemma LogUnnamed(pages: seq<Applied>, page: Applied, start: Runtime, met: Runtime, next: Runtime, alone: bool)
    requires Unnamed(pages, start, met, alone) && !Names(page.batch, page.held)
    requires page.held == HeldIds(met) == HeldIds(next)
    ensures Unnamed(pages + [page], start, next, alone)
  {
  }

  /** Other operations run: the invariant and the direction of the watermark survive. */
  method Others(g: Guarded, h: Host, turns: seq<Turn>)
    requires Inv(g.Value()) && forall i :: 0 <= i < |turns| ==> TurnComparable(h, turns[i])
    modifies g, g.machine, g.machine.clock, g.chain
    ensures Inv(g.Value()) && Forward(old(g.Value()), g.Value())
    ensures Bystanders(turns) ==>
              && g.maxRevocationEpoch == old(g.maxRevocationEpoch)
              && SameOrGone(HeldIds(old(g.Value())), HeldIds(g.Value()))
    ensures g.chain == null || g.chain == old(g.chain) || fresh(g.chain)
  {
    InterleaveKeeps(h, g.Value(), turns);
    if Bystanders(turns) {
      BystandersRun(h, g.Value(), turns);
    }
    g.RunOthers(h, turns);
  }

  /** While they run, so do the pages logged so far. */
  method Yield(g: Guarded, h: Host, turns: seq<Turn>, ghost pages: seq<Applied>, ghost start: Runtime,
               ghost target: U64, ghost alone: bool)
    requires Inv(g.Value()) && Logged(pages, start, g.Value(), target, alone) && (alone ==> Bystanders(turns))
    requires Unnamed(pages, start, g.Value(), alone)
    requires forall i :: 0 <= i < |turns| ==> TurnComparable(h, turns[i])
    modifies g, g.machine, g.machine.clock, g.chain
    ensures Inv(g.Value()) && Forward(old(g.Value()), g.Value())
    ensures Logged(pages, start, g.Value(), target, alone) && Unnamed(pages, start, g.Value(), alone)
    ensures g.chain == null || g.chain == old(g.chain) || fresh(g.chain)
  {
    ghost var met := g.maxRevocationEpoch;
    Others(g, h, turns);
    InOrderWidens(pages, start.maxRevocationEpoch, met, g.maxRevocationEpoch);
  }

  /** Apply one answered page and report it if it took effect. */
  method TakePage(g: Guarded, h: Host, current: U64, target: U64, pass: Pass, envelope: Envelope)
    returns (applied: Result<(), ClientError>, ghost page: Option<Applied>)
    requires Inv(g.Value())
    modifies g, g.machine, g.machine.clock, g.chain
    ensures Inv(g.Value()) && Forward(old(g.Value()), g.Value())
    ensures page.None? ==> g.maxRevocationEpoch == old(g.maxRevocationEpoch) && applied.Err?
    ensures page.Some? ==>
              && page.value.at == current == old(g.maxRevocationEpoch)
              && page.value.batch.fromEpoch == current + 1
              && current < page.value.batch.toEpoch <= target
              && g.maxRevocationEpoch == page.value.batch.toEpoch
              && page.value.held == HeldIds(old(g.Value()))
    ensures applied.Ok? ==> !Names(page.value.batch, page.value.held)
    ensures applied.Ok? ==> HeldIds(g.Value()) == HeldIds(old(g.Value()))
    ensures applied == Err(Superseded) <==> old(g.maxRevocationEpoch) != current
    ensures applied == Err(Superseded) ==> g.Value() == old(g.Value())
    ensures g.chain == null || g.chain == old(g.chain)
  {
    ghost var met := g.Value();
    KeptApplyBatch(h, met, current, target, envelope, pass.now, pass.saved, pass.wiped);
    PageOutcome(h, met, current, target, envelope, pass.now, pass.saved, pass.wiped);
    applied := g.ApplyPage(h, current, target, envelope, pass.now, pass.saved, pass.wiped);
    page := if g.maxRevocationEpoch == met.maxRevocationEpoch then None
            else Some(Applied(current, OpenBatch(h, met, envelope, pass.now).value, HeldIds(met)));
  }

  /** Apply the answer and extend the log; `None` means the loop goes round again. */
  method ApplyAnswer(g: Guarded, h: Host, current: U64, target: U64, pass: Pass, envelope: Envelope,
                     ghost pages: seq<Applied>, ghost start: Runtime, ghost alone: bool)
    returns (done: Option<SyncResult>, ghost next: seq<Applied>)
    requires Inv(g.Value()) && Logged(pages, start, g.Value(), target, alone) && Unnamed(pages, start, g.Value(), alone)
    modifies g, g.machine, g.machine.clock, g.chain
    ensures Inv(g.Value()) && Forward(old(g.Value()), g.Value())
    ensures Logged(next, start, g.Value(), target, alone)
    ensures done != Some(Synced)
    ensures done.None? ==> Unnamed(next, start, g.Value(), alone)
    ensures done.None? ==> old(g.maxRevocationEpoch) != current || g.maxRevocationEpoch > current
    ensures g.chain == null || g.chain == old(g.chain)
  {
    ghost var met := g.Value();
    next := pages;
    var applied, page := TakePage(g, h, current, target, pass, envelope);
    if page.Some? {
      LogPage(pages, page.value, start, met, g.Value(), target, alone);
      next := pages + [page.value];
      if applied.Ok? {
        LogUnnamed(pages, page.value, start, met, g.Value(), alone);
      }
    }
    if applied.Err? && applied.error != Superseded {
      return Some(SyncFailed(applied.error)), next;
    }
    return None, next;
  }

  /** Wait for the page after `current`, while others run, and apply the answer. */
  method Await(g: Guarded, h: Host, current: U64, target: U64, pass: Pass, ghost pages: seq<Applied>,
               ghost start: Runtime, ghost alone: bool)
    returns (done: Option<SyncResult>, ghost next: seq<Applied>)
    requires Inv(g.Value()) && Calm(h, pass) && (alone ==> Alone(pass)) && current <= g.maxRevocationEpoch
    requires Logged(pages, start, g.Value(), target, alone) && Unnamed(pages, start, g.Value(), alone)
    modifies g, g.machine, g.machine.clock, g.chain
    ensures Inv(g.Value()) && Forward(old(g.Value()), g.Value())
    ensures Logged(next, start, g.Value(), target, alone)
    ensures done != Some(Synced)
    ensures done.None? ==> Unnamed(next, start, g.Value(), alone) && current < g.maxRevocationEpoch
    ensures g.chain == null || g.chain == old(g.chain) || fresh(g.chain)
  {
    Yield(g, h, pass.during, pages, start, target, alone);
    next := pages;
    match pass.response {
      case Unreachable(e) => return Some(SyncTransient(e)), next;
      case Refused(e) => return Some(SyncFailed(Fatal(e))), next;
      case Page(envelope) =>
        done, next := ApplyAnswer(g, h, current, target, pass, envelope, pages, start, alone);
    }
  }

  /** One pass of the loop: read the watermark, wait for the page after it, apply the answer. */
  method OnePass(g: Guarded, h: Host, target: U64, pass: Pass, ghost pages: seq<Applied>, ghost start: Runtime,
                 ghost alone: bool)
    returns (done: Option<SyncResult>, ghost next: seq<Applied>)
    requires Inv(g.Value()) && Calm(h, pass) && (alone ==> Alone(pass))
    requires Logged(pages, start, g.Value(), target, alone) && Unnamed(pages, start, g.Value(), alone)
    modifies g, g.machine, g.machine.clock, g.chain
    ensures Inv(g.Value()) && Forward(old(g.Value()), g.Value())
    ensures Logged(next, start, g.Value(), target, alone)
    ensures done.None? || done.value.Synced? ==> Unnamed(next, start, g.Value(), alone)
    ensures done.None? ==> old(g.maxRevocationEpoch) < g.maxRevocationEpoch && old(g.maxRevocationEpoch) < target
    ensures done == Some(Synced) ==> g.maxRevocationEpoch == target
    ensures g.chain == null || g.chain == old(g.chain) || fresh(g.chain)
  {
    Yield(g, h, pass.before, pages, start, target, alone);
    var current := g.maxRevocationEpoch;
    if target < current {
      return Some(SyncFailed(Fatal(RevocationRollback))), pages;
    }
    if target == current {
      return Some(Synced), pages;
    }
    // The cursor is the watermark plus one, and cannot overflow below the target.
    assert current + 1 <= U64_MAX;
    done, next := Await(g, h, current, target, pass, pages, start, alone);
  }

  /**
   `sync_revocations`: ask for the page after the watermark until the watermark is the target.
   `world` says what each pass meets; the loop ends whatever it says.
   */
  method SyncRevocations(g: Guarded, h: Host, target: U64, world: nat -> Pass)
    returns (r: SyncResult, ghost pages: seq<Applied>)
    requires Inv(g.Value()) && forall i: nat :: Calm(h, world(i))
    modifies g, g.machine, g.machine.clock, g.chain
    ensures Inv(g.Value()) && Forward(old(g.Value()), g.Value())
    ensures Logged(pages, old(g.Value()), g.Value(), target, forall i: nat :: Alone(world(i)))
    ensures r.Synced? ==> g.maxRevocationEpoch == target
    ensures r.Synced? ==> Unnamed(pages, old(g.Value()), g.Value(), forall i: nat :: Alone(world(i)))
    ensures g.chain == null || g.chain == old(g.chain) || fresh(g.chain)
  {
    pages := [];
    ghost var start := g.Value();
    ghost var alone := forall i: nat :: Alone(world(i));
    var i := 0;
    while true
      invariant Inv(g.Value()) && Forward(start, g.Value())
      invariant g.chain == null || g.chain == old(g.chain) || fresh(g.chain)
      invariant Logged(pages, start, g.Value(), target, alone) && Unnamed(pages, start, g.Value(), alone)
      decreases target - g.maxRevocationEpoch
    {
      var pass := world(i);
      i := i + 1;
      assert Calm(h, pass) && (alone ==> Alone(pass));
      var done, next := OnePass(g, h, target, pass, pages, start, alone);
      pages := next;
      if done.Some? {
        return done.value, pages;
      }
    }
  }
}
