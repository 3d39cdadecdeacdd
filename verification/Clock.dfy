/** The clock guard: a high-water mark that makes a rolled-back clock unable to extend anything. */
module Clock {
  import opened Wrappers
  import opened Saturating

  const SKEW_TOLERANCE_SECS: I64 := 300
  const FORWARD_JUMP_TOLERANCE_SECS: I64 := 86_400

  datatype ClockVerdict = Sane | Rollback(delta: I64) | ImplausibleJump(delta: I64)

  datatype Marks = Marks(seen: I64, server: I64, rollbacks: U32)

  function Fresh(seed: I64): Marks {
    Marks(seed, seed, 0)
  }

  /** Stored marks are taken as they are, unless the server time lies past the mark. */
  function FromPersisted(seen: I64, server: I64, rollbacks: U32): (c: Option<Marks>)
    ensures c.Some? <==> server <= seen
    ensures c.Some? ==> c.value.seen == seen && c.value.server == server && c.value.rollbacks == rollbacks
  {
    if server > seen then None else Some(Marks(seen, server, rollbacks))
  }

  /** The time every deadline is compared with. */
  function EffectiveNow(c: Marks, wall: I64): (now: I64)
    ensures now >= c.seen && now >= wall && (now == c.seen || now == wall)
  {
    if wall > c.seen then wall else c.seen
  }

  function ExceedsRollbackThreshold(c: Marks, threshold: U32): bool {
    c.rollbacks > threshold
  }

  predicate IsRollback(c: Marks, wall: I64) {
    SatAdd(wall, SKEW_TOLERANCE_SECS) < c.seen
  }

  /** The marks after one wall-clock reading. */
  function Checked(c: Marks, wall: I64): Marks {
    if IsRollback(c, wall) then c.(rollbacks := Min(c.rollbacks + 1, U32_MAX))
    else c.(seen := EffectiveNow(c, wall))
  }

  function CheckVerdict(c: Marks, wall: I64): ClockVerdict {
    if IsRollback(c, wall) then Rollback(SatSub(c.seen, wall)) else Sane
  }

  /** The marks after an authoritative server time. */
  function Observed(c: Marks, serverTime: I64): Marks {
    Marks(Max(c.seen, serverTime), serverTime, c.rollbacks)
  }

  /** The marks of two storage copies combined. */
  function Merged(a: Marks, b: Marks): Marks {
    Marks(Max(a.seen, b.seen), Max(a.server, b.server), Max(a.rollbacks, b.rollbacks))
  }

  class ClockState {
    var lastSeenMax: I64
    var lastServerTime: I64
    var rollbackEvents: U32

    function Value(): Marks
      reads this
    {
      Marks(lastSeenMax, lastServerTime, rollbackEvents)
    }

    constructor (seed: I64)
      ensures Value() == Fresh(seed)
    {
      lastSeenMax, lastServerTime, rollbackEvents := seed, seed, 0;
    }

    constructor Copy(marks: Marks)
      ensures Value() == marks
    {
      lastSeenMax, lastServerTime, rollbackEvents := marks.seen, marks.server, marks.rollbacks;
    }

    method Check(wall: I64) returns (v: ClockVerdict)
      modifies this
      ensures Value() == Checked(old(Value()), wall)
      ensures v == CheckVerdict(old(Value()), wall)
    {
      if SatAdd(wall, SKEW_TOLERANCE_SECS) < lastSeenMax {
        rollbackEvents := if rollbackEvents == U32_MAX then U32_MAX else rollbackEvents + 1;
        return Rollback(SatSub(lastSeenMax, wall));
      }
      if wall > lastSeenMax {
        lastSeenMax := wall;
      }
      return Sane;
    }

    /** The forward-jump check never moves a mark that `Check` alone would not move. */
    method CheckAgainstMonotonic(wall: I64, monotonicElapsed: I64, sessionStart: I64) returns (v: ClockVerdict)
      modifies this
      ensures Value() == Checked(old(Value()), wall)
      ensures IsRollback(old(Value()), wall) ==> v == CheckVerdict(old(Value()), wall)
      ensures !IsRollback(old(Value()), wall) ==>
                var ahead := SatSub(SatSub(wall, sessionStart), monotonicElapsed);
                v == if ahead > FORWARD_JUMP_TOLERANCE_SECS then ImplausibleJump(ahead) else Sane
    {
      var verdict := Check(wall);
      if verdict != Sane {
        return verdict;
      }
      var wallElapsed := SatSub(wall, sessionStart);
      var divergence := SatSub(wallElapsed, monotonicElapsed);
      if divergence > FORWARD_JUMP_TOLERANCE_SECS {
        return ImplausibleJump(divergence);
      }
      return Sane;
    }

    method ObserveServerTime(serverTime: I64)
      modifies this
      ensures Value() == Observed(old(Value()), serverTime)
    {
      lastServerTime := serverTime;
      if serverTime > lastSeenMax {
        lastSeenMax := serverTime;
      }
    }

    method Merge(other: Marks)
      modifies this
      ensures Value() == Merged(old(Value()), other)
    {
      if other.seen > lastSeenMax {
        lastSeenMax := other.seen;
      }
      if other.server > lastServerTime {
        lastServerTime := other.server;
      }
      rollbackEvents := if rollbackEvents >= other.rollbacks then rollbackEvents else other.rollbacks;
    }
  }

  // ----- what the marks mean, in terms of everything ever read

  datatype Reading = Wall(time: I64) | Server(time: I64)

  /** The guard driven by a whole history of readings. */
  function Replay(seed: I64, history: seq<Reading>): Marks {
    if |history| == 0 then Fresh(seed)
    else
      var before := Replay(seed, history[..|history| - 1]);
      match history[|history| - 1]
      case Wall(t) => Checked(before, t)
      case Server(t) => Observed(before, t)
  }

  /** `m` is the greatest of the seed and every reading. */
  ghost predicate IsMaximum(seed: I64, history: seq<Reading>, m: I64) {
    && seed <= m && (forall i :: 0 <= i < |history| ==> history[i].time <= m)
    && (m == seed || exists i :: 0 <= i < |history| && history[i].time == m)
  }

  /** Reading `i` lies more than the tolerance below some earlier reading or the seed. */
  ghost predicate RolledBack(seed: I64, history: seq<Reading>, i: nat)
    requires i < |history|
  {
    && history[i].Wall?
    && (history[i].time + 300 < seed || exists j :: 0 <= j < i && history[i].time + 300 < history[j].time)
  }

  ghost function RollbackCount(seed: I64, history: seq<Reading>): nat {
    if |history| == 0 then 0
    else
      RollbackCount(seed, history[..|history| - 1]) + if RolledBack(seed, history, |history| - 1) then 1 else 0
  }

  /** The last server time, or the seed before any. */
  function LastServer(seed: I64, history: seq<Reading>): I64 {
    if |history| == 0 then seed
    else if history[|history| - 1].Server? then history[|history| - 1].time
    else LastServer(seed, history[..|history| - 1])
  }

  /** The three marks are exactly the maximum, the last server time and the saturated rollback count of the history. */
  lemma {:induction false} ReplayMeaning(seed: I64, history: seq<Reading>)
    ensures var c := Replay(seed, history);
            && IsMaximum(seed, history, c.seen)
            && c.server == LastServer(seed, history)
            && c.rollbacks == Min(RollbackCount(seed, history), U32_MAX)
  {
    if |history| > 0 {
      var n := |history| - 1;
      var earlier := history[..n];
      ReplayMeaning(seed, earlier);
      var before, after := Replay(seed, earlier), Replay(seed, history);
      assert forall i :: 0 <= i < n ==> earlier[i] == history[i];
      assert history[n].Wall? ==> (IsRollback(before, history[n].time) <==> RolledBack(seed, history, n)) by {
        if before.seen != seed {
          var j :| 0 <= j < n && earlier[j].time == before.seen;
          assert history[j].time == before.seen;
        }
      }
      assert after.seen == before.seen || after.seen == history[n].time;
      if after.seen == before.seen && before.seen != seed {
        var j :| 0 <= j < n && earlier[j].time == before.seen;
        assert history[j].time == after.seen;
      }
    }
  }

  /** Server time never passes the high-water mark, so a persisted guard always restores, and restores exactly. */
  lemma {:induction false} ReplayRestores(seed: I64, history: seq<Reading>)
    ensures var c := Replay(seed, history);
            c.server <= c.seen && FromPersisted(c.seen, c.server, c.rollbacks) == Some(c)
  {
    if |history| > 0 {
      ReplayRestores(seed, history[..|history| - 1]);
    }
  }

  ghost predicate AtLeast(a: Marks, b: Marks) {
    a.seen >= b.seen && a.server >= b.server && a.rollbacks >= b.rollbacks
  }

  /** Merging storage copies is a least upper bound: dropping a copy cannot raise the result, and no copy is lowered. */
  lemma MergeIsJoin(a: Marks, b: Marks, bound: Marks)
    ensures AtLeast(Merged(a, b), a) && AtLeast(Merged(a, b), b)
    ensures AtLeast(bound, a) && AtLeast(bound, b) ==> AtLeast(bound, Merged(a, b))
    ensures Merged(a, b) == Merged(b, a) && Merged(a, a) == a
    ensures a.server <= a.seen && b.server <= b.seen ==> Merged(a, b).server <= Merged(a, b).seen
  {
  }
}
