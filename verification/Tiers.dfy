/**
 Pushing tiers in two phases.

 A server never lets a limit key vanish from its catalog. Moving a key from one tier to another
 therefore goes through a bridge: first every changed tier is widened, then it is cut down.
 */
module Tiers {
  import opened Wrappers

  datatype Tier = Tier(
    id: string, caption: string, rank: int, groups: seq<string>, features: seq<string>,
    limits: map<string, int>, archivedAt: Option<int>)

  datatype Write = Write(tier: Tier, create: bool, phase: Option<string>)

  type Remote = map<string, Tier>

  ghost predicate UniqueIds(ts: seq<Tier>) {
    forall i, j :: 0 <= i < j < |ts| ==> ts[i].id != ts[j].id
  }

  /** The first tier with an identifier. */
  function Find(ts: seq<Tier>, id: string): (r: Option<Tier>)
    ensures r.Some? ==> r.value in ts && r.value.id == id
    ensures r.None? ==> forall t :: t in ts ==> t.id != id
  {
    if |ts| == 0 then None else if ts[0].id == id then Some(ts[0]) else Find(ts[1..], id)
  }

  /** The proposed tier with the limits it would drop put back. */
  function Bridge(current: Tier, proposed: Tier): (b: Tier)
    ensures b == proposed.(limits := b.limits) && b.limits.Keys == current.limits.Keys + proposed.limits.Keys
    ensures forall k :: k in proposed.limits ==> b.limits[k] == proposed.limits[k]
    ensures forall k :: k in current.limits && k !in proposed.limits ==> b.limits[k] == current.limits[k]
  {
    proposed.(limits := current.limits + proposed.limits)
  }

  method TierBridge(current: Tier, proposed: Tier) returns (bridge: Tier)
    ensures bridge == Bridge(current, proposed)
  {
    var limits := proposed.limits;
    var todo := current.limits.Keys;
    while todo != {}
      invariant todo <= current.limits.Keys
      invariant limits.Keys == proposed.limits.Keys + (current.limits.Keys - todo)
      invariant forall k :: k in limits ==>
                  limits[k] == if k in proposed.limits then proposed.limits[k] else current.limits[k]
      decreases todo
    {
      var key :| key in todo;
      if key !in limits {
        limits := limits[key := current.limits[key]];
      }
      todo := todo - {key};
    }
    assert limits == current.limits + proposed.limits;
    bridge := proposed.(limits := limits);
  }

  // ----- the plan

  /** What the first loop sends for one tier. */
  function FirstWrite(remote: seq<Tier>, t: Tier): Option<Write> {
    var current := Find(remote, t.id);
    if current.None? then Some(Write(t, true, None))
    else if current.value == t then None
    else
      var b := Bridge(current.value, t);
      if b != current.value && b != t then Some(Write(b, false, Some("bridge")))
      else if b == t then Some(Write(t, false, None))
      else None
  }

  /** What the second loop sends for one tier. */
  function SecondWrite(remote: seq<Tier>, t: Tier): Option<Write> {
    var current := Find(remote, t.id);
    if current.None? || current.value == t || Bridge(current.value, t) == t then None
    else Some(Write(t, false, if Bridge(current.value, t) != current.value then Some("final") else None))
  }

  function FirstWrites(remote: seq<Tier>, local: seq<Tier>): seq<Write> {
    if |local| == 0 then []
    else
      var w := FirstWrite(remote, local[|local| - 1]);
      FirstWrites(remote, local[..|local| - 1]) + if w.Some? then [w.value] else []
  }

  function SecondWrites(remote: seq<Tier>, local: seq<Tier>): seq<Write> {
    if |local| == 0 then []
    else
      var w := SecondWrite(remote, local[|local| - 1]);
      SecondWrites(remote, local[..|local| - 1]) + if w.Some? then [w.value] else []
  }

  function Plan(remote: seq<Tier>, local: seq<Tier>): seq<Write> {
    FirstWrites(remote, local) + SecondWrites(remote, local)
  }

  // ----- a server that overwrites

  function Index(ts: seq<Tier>): Remote {
    if |ts| == 0 then map[] else Index(ts[..|ts| - 1])[ts[|ts| - 1].id := ts[|ts| - 1]]
  }

  function After(r: Remote, writes: seq<Write>): Remote {
    if |writes| == 0 then r
    else
      var w := writes[|writes| - 1];
      After(r, writes[..|writes| - 1])[w.tier.id := w.tier]
  }

  lemma {:induction false} AfterConcat(r: Remote, a: seq<Write>, b: seq<Write>)
    ensures After(r, a + b) == After(After(r, a), b)
  {
    if |b| == 0 {
      assert a + b == a;
    } else {
      AfterConcat(r, a, b[..|b| - 1]);
      assert (a + b)[..|a + b| - 1] == a + b[..|b| - 1];
    }
  }

  lemma {:induction false} AfterOne(r: Remote, writes: seq<Write>, w: Option<Write>)
    ensures After(r, writes + if w.Some? then [w.value] else []) ==
            if w.Some? then After(r, writes)[w.value.tier.id := w.value.tier] else After(r, writes)
  {
    if w.Some? {
      assert (writes + [w.value])[..|writes|] == writes;
    } else {
      assert writes + [] == writes;
    }
  }

  lemma {:induction false} IndexFind(ts: seq<Tier>, id: string)
    requires UniqueIds(ts)
    ensures Find(ts, id) == if id in Index(ts) then Some(Index(ts)[id]) else None
  {
    if |ts| > 0 {
      var n := |ts| - 1;
      IndexFind(ts[..n], id);
      FindAppend(ts[..n], ts[n], id);
      assert ts == ts[..n] + [ts[n]];
      if Find(ts[..n], id).Some? {
        var i :| 0 <= i < n && ts[..n][i] == Find(ts[..n], id).value;
        assert ts[i].id == id;
      }
    }
  }

  lemma {:induction false} FindAppend(ts: seq<Tier>, t: Tier, id: string)
    ensures Find(ts + [t], id) ==
            if Find(ts, id).Some? then Find(ts, id) else if t.id == id then Some(t) else None
  {
    if |ts| == 0 {
      assert (ts + [t])[1..] == [];
    } else {
      FindAppend(ts[1..], t, id);
      assert (ts + [t])[1..] == ts[1..] + [t];
    }
  }

  // ----- where each phase leaves the server

  /** A tier after the first phase: widened if it was there, as proposed if it is new. */
  function Widened(remote: seq<Tier>, t: Tier): (w: Tier)
    ensures w.id == t.id && t.limits.Keys <= w.limits.Keys
  {
    var current := Find(remote, t.id);
    if current.None? then t else Bridge(current.value, t)
  }

  function WidenedAll(remote: seq<Tier>, r: Remote, local: seq<Tier>): Remote {
    if |local| == 0 then r
    else
      var t := local[|local| - 1];
      WidenedAll(remote, r, local[..|local| - 1])[t.id := Widened(remote, t)]
  }

  lemma {:induction false} WidenedAllElsewhere(remote: seq<Tier>, r: Remote, local: seq<Tier>, id: string)
    requires forall t :: t in local ==> t.id != id
    ensures id in WidenedAll(remote, r, local) <==> id in r
    ensures id in r ==> WidenedAll(remote, r, local)[id] == r[id]
  {
    if |local| > 0 {
      assert local[|local| - 1] in local;
      WidenedAllElsewhere(remote, r, local[..|local| - 1], id);
    }
  }

  /** The first loop sends the widened tier, unless it is already there. */
  lemma {:induction false} FirstWriteWidens(remote: seq<Tier>, t: Tier)
    ensures FirstWrite(remote, t).Some? ==> FirstWrite(remote, t).value.tier == Widened(remote, t)
    ensures FirstWrite(remote, t).None? ==> Find(remote, t.id) == Some(Widened(remote, t))
  {
    BridgeSelf(t);
  }

  lemma BridgeSelf(t: Tier)
    ensures Bridge(t, t) == t
  {
    assert t.limits + t.limits == t.limits;
  }

  /** The second loop sends the proposed tier, unless the widened one is it. */
  lemma {:induction false} SecondWriteCuts(remote: seq<Tier>, t: Tier)
    ensures SecondWrite(remote, t).Some? ==> SecondWrite(remote, t).value.tier == t && Find(remote, t.id).Some?
    ensures SecondWrite(remote, t).None? ==> Widened(remote, t) == t
  {
    BridgeSelf(t);
  }

  /** After the first phase every local tier stands on the server as its bridge. */
  lemma {:induction false} FirstPhase(remote: seq<Tier>, local: seq<Tier>)
    requires UniqueIds(remote) && UniqueIds(local)
    ensures After(Index(remote), FirstWrites(remote, local)) == WidenedAll(remote, Index(remote), local)
  {
    if |local| > 0 {
      var n := |local| - 1;
      var init, t := local[..n], local[n];
      FirstPhase(remote, init);
      IndexFind(remote, t.id);
      WidenedAllElsewhere(remote, Index(remote), init, t.id);
      var before := After(Index(remote), FirstWrites(remote, init));
      FirstWriteWidens(remote, t);
      AfterOne(Index(remote), FirstWrites(remote, init), FirstWrite(remote, t));
      if FirstWrite(remote, t).None? {
        assert before[t.id := Widened(remote, t)] == before;
      }
    }
  }

  lemma {:induction false} WidenedAllAt(remote: seq<Tier>, r: Remote, local: seq<Tier>, t: Tier)
    requires UniqueIds(local) && t in local
    ensures t.id in WidenedAll(remote, r, local) && WidenedAll(remote, r, local)[t.id] == Widened(remote, t)
  {
    var n := |local| - 1;
    if t != local[n] {
      assert t in local[..n];
      WidenedAllAt(remote, r, local[..n], t);
      var i :| 0 <= i < n && local[i] == t;
      assert local[i].id != local[n].id;
    }
  }

  /** The second phase writes the proposed tiers over the widened ones. */
  lemma {:induction false} SecondPhase(remote: seq<Tier>, r: Remote, local: seq<Tier>)
    requires UniqueIds(local)
    requires forall t :: t in local ==> t.id in r && r[t.id] == Widened(remote, t)
    ensures var last := After(r, SecondWrites(remote, local));
            && last.Keys == r.Keys
            && (forall t :: t in local ==> t.id in last && last[t.id] == t)
            && (forall id :: id in r && (forall t :: t in local ==> t.id != id) ==> last[id] == r[id])
  {
    if |local| > 0 {
      var n := |local| - 1;
      var init, t := local[..n], local[n];
      assert local == init + [t];
      SecondPhase(remote, r, init);
      assert forall u :: u in init ==> u.id != t.id;
      var before := After(r, SecondWrites(remote, init));
      SecondWriteCuts(remote, t);
      AfterOne(r, SecondWrites(remote, init), SecondWrite(remote, t));
      assert before[t.id] == r[t.id] == Widened(remote, t);
    }
  }

  /** The whole plan leaves every local tier on the server exactly as proposed, and touches nothing else. */
  lemma {:induction false} PlanArrives(remote: seq<Tier>, local: seq<Tier>)
    requires UniqueIds(remote) && UniqueIds(local)
    ensures var last := After(Index(remote), Plan(remote, local));
            && (forall t :: t in local ==> t.id in last && last[t.id] == t)
            && (forall id :: id in Index(remote) && (forall t :: t in local ==> t.id != id) ==>
                               id in last && last[id] == Index(remote)[id])
  {
    var widened := WidenedAll(remote, Index(remote), local);
    AfterConcat(Index(remote), FirstWrites(remote, local), SecondWrites(remote, local));
    FirstPhase(remote, local);
    forall t | t in local
      ensures t.id in widened && widened[t.id] == Widened(remote, t)
    {
      WidenedAllAt(remote, Index(remote), local, t);
    }
    forall id | id in Index(remote) && forall t :: t in local ==> t.id != id
      ensures id in widened && widened[id] == Index(remote)[id]
    {
      WidenedAllElsewhere(remote, Index(remote), local, id);
    }
    SecondPhase(remote, widened, local);
  }

  // ----- every step is a legal evolution

  /** Some tier of the catalog has the limit. */
  ghost predicate HasLimit(r: Remote, k: string) {
    exists id :: id in r && k in r[id].limits
  }

  /** No limit key of `a` has vanished from `b`. */
  ghost predicate KeepsLimits(a: Remote, b: Remote) {
    forall k :: HasLimit(a, k) ==> HasLimit(b, k)
  }

  /** Every limit key on the server appears somewhere in the local catalog. */
  ghost predicate Evolves(remote: seq<Tier>, local: seq<Tier>) {
    forall t, k :: t in remote && k in t.limits ==> exists u :: u in local && k in u.limits
  }

  /** Writing a tier that has at least the limits it had loses nothing. */
  lemma WideningKeeps(r: Remote, t: Tier)
    requires t.id in r ==> r[t.id].limits.Keys <= t.limits.Keys
    ensures KeepsLimits(r, r[t.id := t])
  {
    forall k | HasLimit(r, k)
      ensures HasLimit(r[t.id := t], k)
    {
      var id :| id in r && k in r[id].limits;
      var next := r[t.id := t];
      if id == t.id {
        assert k in next[t.id].limits;
      } else {
        assert id in next && k in next[id].limits;
      }
    }
  }

  /** Cutting a tier down loses nothing while every key it drops is held by another local tier. */
  lemma CuttingKeeps(r: Remote, t: Tier, local: seq<Tier>)
    requires forall u :: u in local ==> u.id in r && u.limits.Keys <= r[u.id].limits.Keys
    requires t in local && UniqueIds(local)
    requires forall k :: k in r[t.id].limits && k !in t.limits ==> exists u :: u in local && k in u.limits
    ensures KeepsLimits(r, r[t.id := t])
  {
    var next := r[t.id := t];
    forall k | HasLimit(r, k)
      ensures HasLimit(next, k)
    {
      var id :| id in r && k in r[id].limits;
      if id == t.id && k !in t.limits {
        var u :| u in local && k in u.limits;
        SameIdSameTier(local, t, u);
        assert u.id in next && k in next[u.id].limits;
      } else {
        assert id in next && k in next[id].limits;
      }
    }
  }

  lemma SameIdSameTier(ts: seq<Tier>, t: Tier, u: Tier)
    requires UniqueIds(ts) && t in ts && u in ts
    ensures t.id == u.id ==> t == u
  {
    var i :| 0 <= i < |ts| && ts[i] == t;
    var j :| 0 <= j < |ts| && ts[j] == u;
  }

  lemma {:induction false} FirstPhaseLegal(remote: seq<Tier>, local: seq<Tier>, n: nat)
    requires UniqueIds(remote) && UniqueIds(local) && n < |FirstWrites(remote, local)|
    ensures KeepsLimits(After(Index(remote), FirstWrites(remote, local)[..n]),
                        After(Index(remote), FirstWrites(remote, local)[..n + 1]))
  {
    var last := |local| - 1;
    var init, t := local[..last], local[last];
    var writes := FirstWrites(remote, init);
    var w := FirstWrite(remote, t);
    if n < |writes| {
      FirstPhaseLegal(remote, init, n);
      assert FirstWrites(remote, local)[..n] == writes[..n];
      assert FirstWrites(remote, local)[..n + 1] == writes[..n + 1];
    } else {
      assert FirstWrites(remote, local)[..n] == writes;
      assert FirstWrites(remote, local)[..n + 1] == writes + [w.value];
      var before := After(Index(remote), writes);
      FirstPhase(remote, init);
      IndexFind(remote, t.id);
      WidenedAllElsewhere(remote, Index(remote), init, t.id);
      FirstWriteWidens(remote, t);
      AfterOne(Index(remote), writes, w);
      WideningKeeps(before, w.value.tier);
    }
  }

  /** During the second phase every local tier still has at least its own limits. */
  lemma {:induction false} SecondPhaseLegal(remote: seq<Tier>, r: Remote, all: seq<Tier>, local: seq<Tier>, n: nat)
    requires UniqueIds(all) && Evolves(remote, all) && local <= all
    requires forall t :: t in all ==> t.id in r && r[t.id] == Widened(remote, t)
    requires n < |SecondWrites(remote, local)|
    ensures KeepsLimits(After(r, SecondWrites(remote, local)[..n]), After(r, SecondWrites(remote, local)[..n + 1]))
  {
    var last := |local| - 1;
    var init, t := local[..last], local[last];
    var writes := SecondWrites(remote, init);
    var w := SecondWrite(remote, t);
    if n < |writes| {
      SecondPhaseLegal(remote, r, all, init, n);
      assert SecondWrites(remote, local)[..n] == writes[..n];
      assert SecondWrites(remote, local)[..n + 1] == writes[..n + 1];
    } else {
      assert SecondWrites(remote, local)[..n] == writes;
      assert SecondWrites(remote, local)[..n + 1] == writes + [w.value];
      SecondWriteCuts(remote, t);
      AfterOne(r, writes, w);
      MidwayLimits(remote, r, all, init);
      assert t == all[last];
      var before := After(r, writes);
      NotYetCut(remote, r, all, init, last);
      CuttingKeeps(before, t, all);
    }
  }

  /** Cutting some tiers leaves every local tier with at least its own limits. */
  lemma {:induction false} MidwayLimits(remote: seq<Tier>, r: Remote, all: seq<Tier>, init: seq<Tier>)
    requires UniqueIds(all) && init <= all
    requires forall t :: t in all ==> t.id in r && r[t.id] == Widened(remote, t)
    ensures forall u :: u in all ==>
              u.id in After(r, SecondWrites(remote, init))
              && u.limits.Keys <= After(r, SecondWrites(remote, init))[u.id].limits.Keys
  {
    SecondPhase(remote, r, init);
    var mid := After(r, SecondWrites(remote, init));
    forall u | u in all
      ensures u.id in mid && u.limits.Keys <= mid[u.id].limits.Keys
    {
      if exists v :: v in init && v.id == u.id {
        var v :| v in init && v.id == u.id;
        SameIdSameTier(all, u, v);
      }
    }
  }

  /** A tier whose turn has not come is still widened. */
  lemma {:induction false} NotYetCut(remote: seq<Tier>, r: Remote, all: seq<Tier>, init: seq<Tier>, n: nat)
    requires UniqueIds(all) && init <= all && n == |init| && n < |all|
    requires forall t :: t in all ==> t.id in r && r[t.id] == Widened(remote, t)
    ensures var mid := After(r, SecondWrites(remote, init));
            all[n].id in mid && mid[all[n].id] == Widened(remote, all[n])
  {
    SecondPhase(remote, r, init);
    forall t | t in init
      ensures t.id != all[n].id
    {
      var i :| 0 <= i < |init| && init[i] == t;
      assert all[i] == t;
    }
  }

  /**
   No single write of the push makes a limit key vanish from the server's catalog, so a server
   that insists on that never refuses one, at whatever write the push may stop.
   */
  lemma {:induction false} EveryWriteLegal(remote: seq<Tier>, local: seq<Tier>, n: nat)
    requires UniqueIds(remote) && UniqueIds(local) && Evolves(remote, local) && n < |Plan(remote, local)|
    ensures KeepsLimits(After(Index(remote), Plan(remote, local)[..n]),
                        After(Index(remote), Plan(remote, local)[..n + 1]))
  {
    var first, second := FirstWrites(remote, local), SecondWrites(remote, local);
    if n < |first| {
      FirstPhaseLegal(remote, local, n);
      assert Plan(remote, local)[..n] == first[..n] && Plan(remote, local)[..n + 1] == first[..n + 1];
    } else {
      var m := n - |first|;
      assert Plan(remote, local)[..n] == first + second[..m];
      assert Plan(remote, local)[..n + 1] == first + second[..m + 1];
      AfterConcat(Index(remote), first, second[..m]);
      AfterConcat(Index(remote), first, second[..m + 1]);
      FirstPhase(remote, local);
      forall t | t in local
        ensures var widened := WidenedAll(remote, Index(remote), local);
                t.id in widened && widened[t.id] == Widened(remote, t)
      {
        WidenedAllAt(remote, Index(remote), local, t);
      }
      SecondPhaseLegal(remote, After(Index(remote), first), local, local, m);
    }
  }

  /**
   Sending each proposed tier straight away would not do: with one key moving between two tiers, the
   first write loses it.
   */
  lemma DirectPushIllegal()
    ensures exists remote: seq<Tier>, local: seq<Tier> ::
              && UniqueIds(remote) && UniqueIds(local) && Evolves(remote, local) && |local| > 0
              && !KeepsLimits(Index(remote), Index(remote)[local[0].id := local[0]])
  {
    var a := Tier("a", "", 0, [], [], map["seats" := 1], None);
    var b := Tier("b", "", 0, [], [], map[], None);
    var remote := [a, b];
    var local := [a.(limits := map[]), b.(limits := map["seats" := 1])];
    assert remote[..1] == [a] && [a][..0] == [];
    assert Index([a]) == map["a" := a];
    assert Index(remote) == map["a" := a, "b" := b];
    assert HasLimit(Index(remote), "seats") by {
      assert "seats" in Index(remote)["a"].limits;
    }
    assert !HasLimit(Index(remote)["a" := local[0]], "seats");
    assert Evolves(remote, local) by {
      assert "seats" in local[1].limits;
    }
  }

  // ----- idempotency keys

  /** The part of an idempotency key that follows the caller's prefix and the collection name. */
  function Tail(w: Write): string {
    w.tier.id + if w.phase.Some? then ":" + w.phase.value else ""
  }

  function IdempotencyKey(prefix: string, w: Write): string {
    prefix + ":tiers:" + Tail(w)
  }

  ghost predicate DistinctKeys(prefix: string, writes: seq<Write>) {
    forall i, j :: 0 <= i < j < |writes| ==> IdempotencyKey(prefix, writes[i]) != IdempotencyKey(prefix, writes[j])
  }

  /** The tier goes through a bridge. */
  predicate Bridged(remote: seq<Tier>, t: Tier) {
    var w := FirstWrite(remote, t);
    w.Some? && w.value.phase == Some("bridge")
  }

  /** The tier is written once, under its own name. */
  predicate Plain(remote: seq<Tier>, t: Tier) {
    !Bridged(remote, t) && (FirstWrite(remote, t).Some? || SecondWrite(remote, t).Some?)
  }

  /** Some tier's name is another's key in one of its phases. */
  ghost predicate Clash(remote: seq<Tier>, local: seq<Tier>) {
    exists t, u :: t in local && u in local && Plain(remote, t) && Bridged(remote, u)
                   && (t.id == u.id + ":bridge" || t.id == u.id + ":final")
  }

  lemma PhasesOf(remote: seq<Tier>, t: Tier)
    ensures Bridged(remote, t) ==>
              && FirstWrite(remote, t) == Some(Write(Widened(remote, t), false, Some("bridge")))
              && SecondWrite(remote, t) == Some(Write(t, false, Some("final")))
    ensures !Bridged(remote, t) ==>
              && (FirstWrite(remote, t).None? || SecondWrite(remote, t).None?)
              && (FirstWrite(remote, t).Some? ==> FirstWrite(remote, t).value.phase == None)
              && (SecondWrite(remote, t).Some? ==> SecondWrite(remote, t).value.phase == None)
  {
    BridgeSelf(t);
  }

  /** Which tier and which phase a write of the plan belongs to. */
  ghost predicate Origin(remote: seq<Tier>, local: seq<Tier>, w: Write, t: Tier, second: bool) {
    && t in local && w.tier.id == t.id
    && Some(w) == if second then SecondWrite(remote, t) else FirstWrite(remote, t)
  }

  lemma {:induction false} FirstOrigin(remote: seq<Tier>, local: seq<Tier>, i: nat) returns (p: nat)
    requires i < |FirstWrites(remote, local)|
    ensures p < |local| && Origin(remote, local, FirstWrites(remote, local)[i], local[p], false)
    ensures FirstWrites(remote, local[..p]) == FirstWrites(remote, local)[..i]
  {
    var n := |local| - 1;
    var writes := FirstWrites(remote, local[..n]);
    FirstWriteWidens(remote, local[n]);
    if i < |writes| {
      p := FirstOrigin(remote, local[..n], i);
      assert local[..n][..p] == local[..p];
      assert FirstWrites(remote, local)[..i] == writes[..i];
    } else {
      p := n;
      assert FirstWrites(remote, local)[..i] == writes;
    }
  }

  lemma {:induction false} SecondOrigin(remote: seq<Tier>, local: seq<Tier>, i: nat) returns (p: nat)
    requires i < |SecondWrites(remote, local)|
    ensures p < |local| && Origin(remote, local, SecondWrites(remote, local)[i], local[p], true)
    ensures SecondWrites(remote, local[..p]) == SecondWrites(remote, local)[..i]
  {
    var n := |local| - 1;
    var writes := SecondWrites(remote, local[..n]);
    SecondWriteCuts(remote, local[n]);
    if i < |writes| {
      p := SecondOrigin(remote, local[..n], i);
      assert local[..n][..p] == local[..p];
      assert SecondWrites(remote, local)[..i] == writes[..i];
    } else {
      p := n;
      assert SecondWrites(remote, local)[..i] == writes;
    }
  }

  /** Distinct writes of the plan come from distinct tiers or distinct phases. */
  lemma PlanOrigin(remote: seq<Tier>, local: seq<Tier>, i: nat) returns (p: nat, second: bool)
    requires i < |Plan(remote, local)|
    ensures p < |local| && Origin(remote, local, Plan(remote, local)[i], local[p], second)
    ensures second <==> i >= |FirstWrites(remote, local)|
    ensures !second ==> FirstWrites(remote, local[..p]) == FirstWrites(remote, local)[..i]
    ensures second ==>
              SecondWrites(remote, local[..p]) == SecondWrites(remote, local)[..i - |FirstWrites(remote, local)|]
  {
    if i < |FirstWrites(remote, local)| {
      second := false;
      p := FirstOrigin(remote, local, i);
    } else {
      second := true;
      p := SecondOrigin(remote, local, i - |FirstWrites(remote, local)|);
    }
  }

  lemma TailsClash(a: string, b: string)
    ensures a + ":bridge" == b + ":bridge" ==> a == b
    ensures a + ":final" == b + ":final" ==> a == b
    ensures a + ":bridge" != b + ":final"
  {
    if a + ":bridge" == b + ":bridge" {
      assert a == (a + ":bridge")[..|a|] && b == (b + ":bridge")[..|b|];
    }
    if a + ":final" == b + ":final" {
      assert a == (a + ":final")[..|a|] && b == (b + ":final")[..|b|];
    }
    assert (a + ":bridge")[|a + ":bridge"| - 1] == 'e' && (b + ":final")[|b + ":final"| - 1] == 'l';
  }

  lemma KeysAndTails(prefix: string, v: Write, w: Write)
    ensures IdempotencyKey(prefix, v) == IdempotencyKey(prefix, w) <==> Tail(v) == Tail(w)
  {
    var head := prefix + ":tiers:";
    assert IdempotencyKey(prefix, v)[|head|..] == Tail(v) && IdempotencyKey(prefix, w)[|head|..] == Tail(w);
  }

  lemma TailOf(remote: seq<Tier>, local: seq<Tier>, w: Write, t: Tier, second: bool)
    requires Origin(remote, local, w, t, second)
    ensures Tail(w) == t.id + if !Bridged(remote, t) then "" else if second then ":final" else ":bridge"
    ensures !Bridged(remote, t) ==> Plain(remote, t)
  {
    PhasesOf(remote, t);
    assert ":" + "bridge" == ":bridge" && ":" + "final" == ":final";
  }

  /** Equal tails mean the same tier in the same phase, unless the catalog clashes. */
  lemma EqualTails(remote: seq<Tier>, local: seq<Tier>, v: Write, w: Write, t: Tier, u: Tier, vs: bool, ws: bool)
    requires UniqueIds(local) && !Clash(remote, local)
    requires Origin(remote, local, v, t, vs) && Origin(remote, local, w, u, ws) && Tail(v) == Tail(w)
    ensures t == u && vs == ws
  {
    TailOf(remote, local, v, t, vs);
    TailOf(remote, local, w, u, ws);
    assert t.id + "" == t.id && u.id + "" == u.id;
    TailsClash(t.id, u.id);
    TailsClash(u.id, t.id);
    SameIdSameTier(local, t, u);
    PhasesOf(remote, t);
  }

  /** Two writes of the plan from the same tier and phase are the same write. */
  lemma {:induction false} SamePlace(remote: seq<Tier>, local: seq<Tier>, i: nat, j: nat, p: nat, second: bool)
    requires i < j < |Plan(remote, local)| && p < |local|
    requires second <==> i >= |FirstWrites(remote, local)|
    requires second <==> j >= |FirstWrites(remote, local)|
    ensures !second ==> FirstWrites(remote, local)[..i] != FirstWrites(remote, local)[..j]
    ensures second ==> SecondWrites(remote, local)[..i - |FirstWrites(remote, local)|]
                       != SecondWrites(remote, local)[..j - |FirstWrites(remote, local)|]
  {
    var m := |FirstWrites(remote, local)|;
    if second {
      assert |SecondWrites(remote, local)[..i - m]| != |SecondWrites(remote, local)[..j - m]|;
    } else {
      assert |FirstWrites(remote, local)[..i]| != |FirstWrites(remote, local)[..j]|;
    }
  }

  lemma IndexOfId(ts: seq<Tier>, p: nat, q: nat)
    requires UniqueIds(ts) && p < |ts| && q < |ts| && ts[p] == ts[q]
    ensures p == q
  {
  }

  lemma NoClashDistinct(remote: seq<Tier>, local: seq<Tier>, prefix: string)
    requires UniqueIds(local) && !Clash(remote, local)
    ensures DistinctKeys(prefix, Plan(remote, local))
  {
    var plan := Plan(remote, local);
    forall i, j | 0 <= i < j < |plan|
      ensures IdempotencyKey(prefix, plan[i]) != IdempotencyKey(prefix, plan[j])
    {
      KeysAndTails(prefix, plan[i], plan[j]);
      var p, ps := PlanOrigin(remote, local, i);
      var q, qs := PlanOrigin(remote, local, j);
      if Tail(plan[i]) == Tail(plan[j]) {
        EqualTails(remote, local, plan[i], plan[j], local[p], local[q], ps, qs);
        IndexOfId(local, p, q);
        SamePlace(remote, local, i, j, p, ps);
      }
    }
  }

  lemma {:induction false} PlanIncludes(remote: seq<Tier>, local: seq<Tier>, t: Tier)
    requires t in local
    ensures FirstWrite(remote, t).Some? ==> FirstWrite(remote, t).value in FirstWrites(remote, local)
    ensures SecondWrite(remote, t).Some? ==> SecondWrite(remote, t).value in SecondWrites(remote, local)
  {
    var n := |local| - 1;
    if t != local[n] {
      assert t in local[..n];
      PlanIncludes(remote, local[..n], t);
    }
  }

  lemma Collide(plan: seq<Write>, v: Write, w: Write, prefix: string)
    requires v in plan && w in plan && v != w && Tail(v) == Tail(w)
    ensures !DistinctKeys(prefix, plan)
  {
    KeysAndTails(prefix, v, w);
    var i :| 0 <= i < |plan| && plan[i] == v;
    var j :| 0 <= j < |plan| && plan[j] == w;
    var lo, hi := if i < j then i else j, if i < j then j else i;
    assert IdempotencyKey(prefix, plan[lo]) == IdempotencyKey(prefix, plan[hi]);
  }

  /** The one write of a plainly sent tier. */
  lemma PlainWrite(remote: seq<Tier>, local: seq<Tier>, t: Tier) returns (v: Write)
    requires t in local && Plain(remote, t)
    ensures v in Plan(remote, local) && v.phase.None? && Tail(v) == t.id
  {
    PhasesOf(remote, t);
    PlanIncludes(remote, local, t);
    FirstWriteWidens(remote, t);
    SecondWriteCuts(remote, t);
    v := if FirstWrite(remote, t).Some? then FirstWrite(remote, t).value else SecondWrite(remote, t).value;
  }

  /** The two writes of a bridged tier. */
  lemma BridgedWrites(remote: seq<Tier>, local: seq<Tier>, u: Tier) returns (bridge: Write, final: Write)
    requires u in local && Bridged(remote, u)
    ensures bridge in Plan(remote, local) && bridge.phase.Some? && Tail(bridge) == u.id + ":bridge"
    ensures final in Plan(remote, local) && final.phase.Some? && Tail(final) == u.id + ":final"
  {
    PhasesOf(remote, u);
    PlanIncludes(remote, local, u);
    bridge, final := FirstWrite(remote, u).value, SecondWrite(remote, u).value;
    assert ":" + "bridge" == ":bridge" && ":" + "final" == ":final";
  }

  lemma ClashCollides(remote: seq<Tier>, local: seq<Tier>, prefix: string)
    requires Clash(remote, local)
    ensures !DistinctKeys(prefix, Plan(remote, local))
  {
    var t, u :| t in local && u in local && Plain(remote, t) && Bridged(remote, u)
                && (t.id == u.id + ":bridge" || t.id == u.id + ":final");
    var v := PlainWrite(remote, local, t);
    var bridge, final := BridgedWrites(remote, local, u);
    if t.id == u.id + ":bridge" {
      Collide(Plan(remote, local), v, bridge, prefix);
    } else {
      Collide(Plan(remote, local), v, final, prefix);
    }
  }

  /** The idempotency keys of a push are pairwise distinct exactly when no tier is named like another tier's phase. */
  lemma KeysDistinctExactly(remote: seq<Tier>, local: seq<Tier>, prefix: string)
    requires UniqueIds(local)
    ensures DistinctKeys(prefix, Plan(remote, local)) <==> !Clash(remote, local)
  {
    if Clash(remote, local) {
      ClashCollides(remote, local, prefix);
    } else {
      NoClashDistinct(remote, local, prefix);
    }
  }

  /** Printable, non-blank ASCII. */
  predicate Graphic(key: string) {
    forall c :: c in key ==> '!' <= c <= '~'
  }

  /** An idempotency key the server takes: 1 to 128 such characters. */
  predicate ValidKey(key: string) {
    0 < |key| <= 128 && Graphic(key)
  }

  /** The check of every key a push might use, made before it. */
  predicate KeysChecked(prefix: string, local: seq<Tier>) {
    && ValidKey(prefix)
    && forall t :: t in local ==>
         && ValidKey(prefix + ":tiers:" + t.id) && ValidKey(prefix + ":tiers:" + t.id + ":bridge")
         && ValidKey(prefix + ":tiers:" + t.id + ":final")
  }

  lemma GraphicConcat(a: string, b: string)
    requires Graphic(a) && Graphic(b)
    ensures Graphic(a + b)
  {
  }

  lemma KeysCheckedFor(prefix: string, t: Tier)
    requires ValidKey(prefix) && Graphic(t.id) && |prefix| + |t.id| <= 114
    ensures ValidKey(prefix + ":tiers:" + t.id) && ValidKey(prefix + ":tiers:" + t.id + ":bridge")
    ensures ValidKey(prefix + ":tiers:" + t.id + ":final")
  {
    GraphicConcat(prefix, ":tiers:");
    GraphicConcat(prefix + ":tiers:", t.id);
    GraphicConcat(prefix + ":tiers:" + t.id, ":bridge");
    GraphicConcat(prefix + ":tiers:" + t.id, ":final");
  }

  const BEFORE := Tier("u", "", 0, [], [], map["old" := 1], None)
  const CHANGED := Tier("u", "", 0, [], [], map["new" := 1], None)
  const ADDED := Tier("u:bridge", "", 0, [], [], map["old" := 1], None)

  lemma ExampleClashes()
    ensures Clash([BEFORE], [CHANGED, ADDED])
  {
    var remote, local := [BEFORE], [CHANGED, ADDED];
    assert Find(remote, CHANGED.id) == Some(BEFORE) && Find(remote, ADDED.id) == None;
    assert "new" in Bridge(BEFORE, CHANGED).limits && "old" in Bridge(BEFORE, CHANGED).limits;
    assert Bridged(remote, CHANGED) && Plain(remote, ADDED) && ADDED.id == CHANGED.id + ":bridge";
    assert CHANGED == local[0] && ADDED == local[1];
  }

  lemma ExampleChecked(prefix: string)
    requires ValidKey(prefix) && |prefix| <= 106
    ensures KeysChecked(prefix, [CHANGED, ADDED])
  {
    assert Graphic(CHANGED.id) && Graphic(ADDED.id);
    KeysCheckedFor(prefix, CHANGED);
    KeysCheckedFor(prefix, ADDED);
  }

  lemma ExampleEvolves()
    ensures Evolves([BEFORE], [CHANGED, ADDED])
  {
    assert "old" in ADDED.limits && ADDED == [CHANGED, ADDED][1];
  }

  /**
   A catalog whose keys collide whatever the prefix: it has distinct identifiers, loses no tier and no
   limit key, and with any valid prefix of up to 106 characters it passes the check of its keys.
   */
  lemma KeysCollide(prefix: string)
    ensures var remote, local := [BEFORE], [CHANGED, ADDED];
            && UniqueIds(remote) && UniqueIds(local) && Evolves(remote, local)
            && (forall t :: t in remote ==> Find(local, t.id).Some?)
            && (ValidKey(prefix) && |prefix| <= 106 ==> KeysChecked(prefix, local))
            && !DistinctKeys(prefix, Plan(remote, local))
  {
    ExampleClashes();
    ExampleEvolves();
    ClashCollides([BEFORE], [CHANGED, ADDED], prefix);
    if ValidKey(prefix) && |prefix| <= 106 {
      ExampleChecked(prefix);
    }
  }

  /** Names without a colon never clash. */
  lemma ColonFreeDistinct(remote: seq<Tier>, local: seq<Tier>, prefix: string)
    requires UniqueIds(local) && forall t :: t in local ==> ':' !in t.id
    ensures DistinctKeys(prefix, Plan(remote, local))
  {
    forall u: Tier
      ensures ':' in u.id + ":bridge" && ':' in u.id + ":final"
    {
      assert (u.id + ":bridge")[|u.id|] == ':' && (u.id + ":final")[|u.id|] == ':';
    }
    KeysDistinctExactly(remote, local, prefix);
  }

  // ----- what is sent, and in which order

  /** A tier the server already has as proposed is never sent. */
  lemma {:induction false} UnchangedNotSent(remote: seq<Tier>, local: seq<Tier>, t: Tier, i: nat)
    requires UniqueIds(local) && t in local && Find(remote, t.id) == Some(t) && i < |Plan(remote, local)|
    ensures Plan(remote, local)[i].tier.id != t.id
  {
    var p, second := PlanOrigin(remote, local, i);
    SameIdSameTier(local, t, local[p]);
  }

  /**
   A write creates exactly when the server lacks the tier. Every write of the first phase only adds limit
   keys to its tier, and every write of the second only removes them.
   */
  lemma {:induction false} AdditionsFirst(remote: seq<Tier>, local: seq<Tier>, i: nat)
    requires UniqueIds(remote) && UniqueIds(local) && i < |Plan(remote, local)|
    ensures var before := After(Index(remote), Plan(remote, local)[..i]);
            var t := Plan(remote, local)[i].tier;
            && (Plan(remote, local)[i].create <==> t.id !in before)
            && (i < |FirstWrites(remote, local)| && t.id in before ==> before[t.id].limits.Keys <= t.limits.Keys)
            && (i >= |FirstWrites(remote, local)| ==> t.id in before && t.limits.Keys <= before[t.id].limits.Keys)
  {
    var first := FirstWrites(remote, local);
    var p, second := PlanOrigin(remote, local, i);
    var t, init := local[p], local[..p];
    if !second {
      assert Plan(remote, local)[..i] == first[..i];
      FirstPhase(remote, init);
      IndexFind(remote, t.id);
      WidenedAllElsewhere(remote, Index(remote), init, t.id);
      FirstWriteWidens(remote, t);
    } else {
      var widened := After(Index(remote), first);
      assert Plan(remote, local)[..i] == first + SecondWrites(remote, init);
      AfterConcat(Index(remote), first, SecondWrites(remote, init));
      FirstPhase(remote, local);
      forall u | u in local
        ensures u.id in widened && widened[u.id] == Widened(remote, u)
      {
        WidenedAllAt(remote, Index(remote), local, u);
      }
      NotYetCut(remote, widened, local, init, p);
      SecondWriteCuts(remote, t);
    }
  }

  // ----- the push

  /** How a request ends: done, done with an unusable reply, or refused. */
  datatype Answer = Accepted | Unusable | Refused

  class TierPush {
    var remote: Remote
    var sent: seq<Write>
    var created: nat
    var updated: nat
    var bridgeUpdates: nat
    var unchanged_: nat

    constructor (server: Remote)
      ensures remote == server && sent == [] && created == updated == bridgeUpdates == unchanged_ == 0
    {
      remote, sent := server, [];
      created, updated, bridgeUpdates, unchanged_ := 0, 0, 0, 0;
    }

    /** `mutate_catalog_item`: send one tier unless the server is known to have it already. */
    method MutateItem(tier: Tier, current: Option<Tier>, prefix: string, phase: Option<string>, answer: Answer)
      returns (ok: bool)
      modifies this
      ensures current == Some(tier) ==> ok && sent == old(sent) && remote == old(remote)
      ensures var w := Write(tier, current.None?, phase);
              current != Some(tier) ==>
                && ok == (ValidKey(IdempotencyKey(prefix, w)) && answer.Accepted?)
                && (if ValidKey(IdempotencyKey(prefix, w)) && !answer.Refused?
                    then sent == old(sent) + [w] && remote == old(remote)[tier.id := tier]
                    else sent == old(sent) && remote == old(remote))
      ensures ok ==> created == old(created) + (if current.None? then 1 else 0)
                     && updated == old(updated) + (if current.Some? && current.value != tier then 1 else 0)
                     && unchanged_ == old(unchanged_) + (if current == Some(tier) then 1 else 0)
      ensures bridgeUpdates == old(bridgeUpdates)
    {
      if current == Some(tier) {
        unchanged_ := unchanged_ + 1;
        return true;
      }
      var key := prefix + ":tiers:" + tier.id;
      if phase.Some? {
        key := key + ":";
        key := key + phase.value;
      }
      assert key == IdempotencyKey(prefix, Write(tier, current.None?, phase));
      if !ValidKey(key) {
        return false;
      }
      if current.Some? {
        updated := updated + 1;
      } else {
        created := created + 1;
      }
      if answer.Refused? {
        return false;
      }
      remote := remote[tier.id := tier];
      sent := sent + [Write(tier, current.None?, phase)];
      return answer.Accepted?;
    }

    /** A turn of the first loop. */
    method Widen(tier: Tier, catalog: seq<Tier>, prefix: string, answer: Answer) returns (ok: bool)
      modifies this
      ensures var w := FirstWrite(catalog, tier);
              if w.Some? && (ok || (sent, remote) != (old(sent), old(remote)))
              then sent == old(sent) + [w.value] && remote == old(remote)[w.value.tier.id := w.value.tier]
              else sent == old(sent) && remote == old(remote)
      ensures ok ==> |sent| - created - updated == old(|sent| - created - updated)
      ensures ok ==> created + unchanged_ + updated - bridgeUpdates +
                     (if SecondWrite(catalog, tier).Some? then 1 else 0)
                     == old(created + unchanged_ + updated - bridgeUpdates) + 1
    {
      BridgeSelf(tier);
      var current := Find(catalog, tier.id);
      match current
      case None =>
        ok := MutateItem(tier, None, prefix, None, answer);
      case Some(value) =>
        if value == tier {
          unchanged_ := unchanged_ + 1;
          return true;
        }
        var bridge := TierBridge(value, tier);
        if bridge != value && bridge != tier {
          ok := MutateItem(bridge, current, prefix, Some("bridge"), answer);
          if ok {
            bridgeUpdates := bridgeUpdates + 1;
          }
        } else if bridge == tier {
          ok := MutateItem(tier, current, prefix, None, answer);
        } else {
          ok := true;
        }
    }

    /** A turn of the second loop. */
    method Cut(tier: Tier, catalog: seq<Tier>, prefix: string, answer: Answer) returns (ok: bool)
      modifies this
      ensures var w := SecondWrite(catalog, tier);
              if w.Some? && (ok || (sent, remote) != (old(sent), old(remote)))
              then sent == old(sent) + [w.value] && remote == old(remote)[w.value.tier.id := w.value.tier]
              else sent == old(sent) && remote == old(remote)
      ensures ok ==> |sent| - created - updated == old(|sent| - created - updated)
      ensures ok ==> created + unchanged_ + updated - bridgeUpdates
                     == old(created + unchanged_ + updated - bridgeUpdates) +
                        if SecondWrite(catalog, tier).Some? then 1 else 0
    {
      var current := Find(catalog, tier.id);
      if current.None? || current.value == tier {
        return true;
      }
      var bridge := TierBridge(current.value, tier);
      if bridge == tier {
        return true;
      }
      var phase := if bridge != current.value then Some("final") else None;
      ok := MutateItem(tier, current, prefix, phase, answer);
    }

    /** The first loop. */
    method WidenAll(local: seq<Tier>, catalog: seq<Tier>, prefix: string, answers: nat -> Answer) returns (ok: bool)
      requires remote == Index(catalog) && sent == []
      requires created == updated == bridgeUpdates == unchanged_ == 0
      modifies this
      ensures sent <= FirstWrites(catalog, local) && remote == After(Index(catalog), sent)
      ensures ok ==> sent == FirstWrites(catalog, local) && created + updated == |sent|
      ensures ok ==> created + unchanged_ + updated + |SecondWrites(catalog, local)| == |local| + bridgeUpdates
    {
      for i := 0 to |local|
        invariant sent == FirstWrites(catalog, local[..i]) && remote == After(Index(catalog), sent)
        invariant created + updated == |sent|
        invariant created + unchanged_ + updated + |SecondWrites(catalog, local[..i])| == i + bridgeUpdates
      {
        ghost var before := sent;
        var done := Widen(local[i], catalog, prefix, answers(|sent|));
        AfterOne(Index(catalog), before, FirstWrite(catalog, local[i]));
        PlanStep(catalog, local, i);
        if !done {
          return false;
        }
      }
      assert local[..|local|] == local;
      return true;
    }

    /** The second loop. */
    method CutAll(local: seq<Tier>, catalog: seq<Tier>, prefix: string, answers: nat -> Answer) returns (ok: bool)
      requires remote == After(Index(catalog), sent)
      modifies this
      ensures old(sent) <= sent <= old(sent) + SecondWrites(catalog, local)
      ensures remote == After(Index(catalog), sent)
      ensures ok ==> sent == old(sent) + SecondWrites(catalog, local)
      ensures ok ==> |sent| - created - updated == old(|sent| - created - updated)
      ensures ok ==> created + unchanged_ + updated - bridgeUpdates
                     == old(created + unchanged_ + updated - bridgeUpdates) + |SecondWrites(catalog, local)|
    {
      for i := 0 to |local|
        invariant sent == old(sent) + SecondWrites(catalog, local[..i])
        invariant remote == After(Index(catalog), sent)
        invariant |sent| - created - updated == old(|sent| - created - updated)
        invariant created + unchanged_ + updated - bridgeUpdates
                  == old(created + unchanged_ + updated - bridgeUpdates) + |SecondWrites(catalog, local[..i])|
      {
        ghost var before := sent;
        var done := Cut(local[i], catalog, prefix, answers(|sent|));
        AfterOne(Index(catalog), before, SecondWrite(catalog, local[i]));
        PlanStep(catalog, local, i);
        Appended(old(sent), SecondWrites(catalog, local[..i]), Listed(SecondWrite(catalog, local[i])),
                 SecondWrites(catalog, local));
        if !done {
          return false;
        }
      }
      assert local[..|local|] == local;
      return true;
    }

    /**
     `mutate_catalog_tiers`. Whatever the server answers, what was sent is the beginning of the
     plan; a push that succeeds has sent all of it, and has counted every local tier exactly once.
     */
    method MutateCatalogTiers(local: seq<Tier>, catalog: seq<Tier>, prefix: string, answers: nat -> Answer)
      returns (ok: bool)
      requires remote == Index(catalog) && sent == []
      requires created == updated == bridgeUpdates == unchanged_ == 0
      modifies this
      ensures sent <= Plan(catalog, local) && remote == After(Index(catalog), sent)
      ensures ok ==> sent == Plan(catalog, local)
      ensures ok ==> created + updated == |sent| && created + unchanged_ + updated == |local| + bridgeUpdates
    {
      ok := WidenAll(local, catalog, prefix, answers);
      if ok {
        ok := CutAll(local, catalog, prefix, answers);
      }
    }
  }

  ghost function Listed(w: Option<Write>): seq<Write> {
    if w.Some? then [w.value] else []
  }

  lemma Appended(s: seq<Write>, a: seq<Write>, b: seq<Write>, whole: seq<Write>)
    requires a + b <= whole
    ensures s + (a + b) == s + a + b
    ensures s <= s + a <= s + whole && s + a + b <= s + whole
  {
  }

  /** What the loops have sent after one more tier. */
  lemma {:induction false} PlanStep(remote: seq<Tier>, local: seq<Tier>, i: nat)
    requires i < |local|
    ensures FirstWrites(remote, local[..i + 1]) ==
            FirstWrites(remote, local[..i]) + Listed(FirstWrite(remote, local[i]))
    ensures SecondWrites(remote, local[..i + 1]) ==
            SecondWrites(remote, local[..i]) + Listed(SecondWrite(remote, local[i]))
    ensures FirstWrites(remote, local[..i + 1]) <= FirstWrites(remote, local)
    ensures SecondWrites(remote, local[..i + 1]) <= SecondWrites(remote, local)
  {
    assert local[..i + 1][..i] == local[..i];
    PlanPrefix(remote, local, i + 1);
  }

  /** What the loops have sent after `i` tiers begins what they send in all. */
  lemma {:induction false} PlanPrefix(remote: seq<Tier>, local: seq<Tier>, i: nat)
    requires i <= |local|
    ensures FirstWrites(remote, local[..i]) <= FirstWrites(remote, local)
    ensures SecondWrites(remote, local[..i]) <= SecondWrites(remote, local)
  {
    if i < |local| {
      var init := local[..|local| - 1];
      PlanPrefix(remote, init, i);
      assert init[..i] == local[..i];
    } else {
      assert local[..i] == local;
    }
  }
}
