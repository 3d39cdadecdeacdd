/**
 When the client talks to its server again: jittered refresh intervals after a success, and
 jittered, doubling, capped retries after a failure.
 */
module Scheduler {
  import opened Wrappers
  import opened Saturating
  import opened Digits

  // ----- durations, in nanoseconds

  const SECOND := 1_000_000_000
  const MILLI := 1_000_000
  const LONGEST := U64_MAX * SECOND + 999_999_999
  const U128_MAX := 0xFFFF_FFFF_FFFF_FFFF_FFFF_FFFF_FFFF_FFFF

  type Duration = d: nat | d <= LONGEST

  function ScaledBy(d: Duration, factor: nat): Duration {
    Min(factor * d, LONGEST)
  }

  // ----- jitter

  const JITTER_BASE := 8_500
  const JITTER_SPAN := 3_001
  const JITTER_SCALE := 10_000

  function Factor(sample: U64): (f: nat)
    ensures 8_500 <= f <= 11_500
  {
    JITTER_BASE + sample % JITTER_SPAN
  }

  function Jitter(base: Duration, sample: U64): Duration {
    var millis := Min((base / MILLI) * Factor(sample), U128_MAX) / JITTER_SCALE;
    Min(millis, U64_MAX) * MILLI
  }

  /** The 128-bit product never saturates; the only cut is at the last representable millisecond. */
  lemma JitterExact(base: Duration, sample: U64)
    ensures Jitter(base, sample) == Min((base / MILLI) * Factor(sample) / JITTER_SCALE, U64_MAX) * MILLI
  {
    MulMonotone(Factor(sample), 11_500, base / MILLI);
  }

  /** 85 to 115 per cent of the base, both up to a millisecond, unless the clock of milliseconds ends first. */
  lemma JitterRange(base: Duration, sample: U64)
    ensures 100 * Jitter(base, sample) <= 115 * base
    ensures Jitter(base, sample) == U64_MAX * MILLI || 85 * base < 100 * (Jitter(base, sample) + 2 * MILLI)
  {
    JitterExact(base, sample);
    MulMonotone(Factor(sample), 11_500, base / MILLI);
    MulMonotone(8_500, Factor(sample), base / MILLI);
  }

  lemma JitterMonotone(a: Duration, b: Duration, s: U64, t: U64)
    requires a <= b && Factor(s) <= Factor(t)
    ensures Jitter(a, s) <= Jitter(b, t)
  {
    JitterExact(a, s);
    JitterExact(b, t);
    MulMonotone(a / MILLI, b / MILLI, Factor(s));
    MulMonotone(Factor(s), Factor(t), b / MILLI);
    DivMonotone((a / MILLI) * Factor(s), (b / MILLI) * Factor(t));
  }

  lemma DivMonotone(a: nat, b: nat)
    requires a <= b
    ensures a / JITTER_SCALE <= b / JITTER_SCALE
  {
  }

  // ----- the schedule

  datatype Config = Config(baseRetry: Duration, maxRetry: Duration, pollInterval: Duration)

  predicate ValidConfig(c: Config) {
    && 0 < c.baseRetry <= c.maxRetry
    && 0 < c.pollInterval <= 60 * SECOND
  }

  datatype Schedule = Schedule(
    nextAttempt: Option<I64>, lastAttempt: Option<I64>, failures: U8, startupPending: bool)

  function Initial(hasCredential: bool): Schedule {
    Schedule(None, None, 0, hasCredential)
  }

  function Disabled(s: Schedule): Schedule {
    s.(nextAttempt := None, failures := 0, startupPending := false)
  }

  datatype Ask = Ask(now: I64, hasCredential: bool, onlineHint: bool, requested: bool, minimum: I64)

  predicate HintDue(s: Schedule, a: Ask) {
    a.onlineHint && (s.lastAttempt.None? || SatSub(a.now, s.lastAttempt.value) >= a.minimum)
  }

  predicate TimerDue(s: Schedule, now: I64) {
    s.nextAttempt.Some? && now >= s.nextAttempt.value
  }

  predicate Attempts(s: Schedule, a: Ask) {
    a.hasCredential && (s.startupPending || a.requested || HintDue(s, a) || TimerDue(s, a.now))
  }

  function Asked(s: Schedule, a: Ask): Schedule {
    if !a.hasCredential then Disabled(s)
    else if Attempts(s, a) then s.(startupPending := false, lastAttempt := Some(a.now))
    else s
  }

  function RefreshSeconds(start: I64, deadline: I64, sample: U64): I64 {
    var interval := Max(SatSub(deadline, start), 1);
    Min(Jitter(interval * SECOND, sample) / SECOND, I64_MAX)
  }

  function Succeeded(s: Schedule, now: I64, start: I64, deadline: I64, sample: U64): Schedule {
    s.(failures := 0, startupPending := false,
       nextAttempt := Some(Max(SatAdd(start, RefreshSeconds(start, deadline, sample)), SatAdd(now, 1))))
  }

  function PowerOfTwo(e: nat): (p: nat)
    ensures p > 0
  {
    if e == 0 then 1 else 2 * PowerOfTwo(e - 1)
  }

  /** The nominal wait after the `failures`-th failure in a row. */
  function Backoff(failures: nat, c: Config, retryAfter: Option<Duration>): Duration {
    var exponential := ScaledBy(c.baseRetry, PowerOfTwo(Min(Max(failures - 1, 0), 6)));
    var asked := if retryAfter.Some? then retryAfter.value else 0;
    Min(Max(exponential, asked), c.maxRetry)
  }

  function WholeSeconds(d: Duration): I64 {
    Min(Max(d / SECOND, 1), I64_MAX)
  }

  function RetrySeconds(failures: nat, c: Config, retryAfter: Option<Duration>, sample: U64): I64 {
    WholeSeconds(Jitter(Backoff(failures, c, retryAfter), sample))
  }

  function Failed(s: Schedule, now: I64, c: Config, retryAfter: Option<Duration>, sample: U64): Schedule {
    var failures := Min(s.failures + 1, U8_MAX);
    s.(failures := failures, nextAttempt := Some(SatAdd(now, RetrySeconds(failures, c, retryAfter, sample))))
  }

  function NextDelay(s: Schedule, now: I64, poll: Duration): Duration {
    if s.startupPending || TimerDue(s, now) then 0
    else if s.nextAttempt.None? then poll
    else
      var gap := SatSub(s.nextAttempt.value, now);
      Min(poll, if gap < 0 then U64_MAX * SECOND else gap * SECOND)
  }

  class SchedulerState {
    var nextAttempt: Option<I64>
    var lastAttempt: Option<I64>
    var failures: U8
    var startupPending: bool

    function Value(): Schedule
      reads this
    {
      Schedule(nextAttempt, lastAttempt, failures, startupPending)
    }

    constructor (hasCredential: bool)
      ensures Value() == Initial(hasCredential)
    {
      nextAttempt, lastAttempt, failures, startupPending := None, None, 0, hasCredential;
    }

    method ShouldAttempt(now: I64, hasCredential: bool, onlineHint: bool, requested: bool, minimum: I64)
      returns (attempt: bool)
      modifies this
      ensures var a := Ask(now, hasCredential, onlineHint, requested, minimum);
              attempt == Attempts(old(Value()), a) && Value() == Asked(old(Value()), a)
    {
      if !hasCredential {
        Disable();
        return false;
      }
      var hintDue := onlineHint && (lastAttempt.None? || SatSub(now, lastAttempt.value) >= minimum);
      var timerDue := nextAttempt.Some? && now >= nextAttempt.value;
      if startupPending || requested || hintDue || timerDue {
        startupPending := false;
        MarkAttempt(now);
        return true;
      }
      return false;
    }

    method MarkAttempt(now: I64)
      modifies this
      ensures Value() == old(Value()).(lastAttempt := Some(now))
    {
      lastAttempt := Some(now);
    }

    method RecordSuccess(now: I64, start: I64, deadline: I64, sample: U64)
      modifies this
      ensures Value() == Succeeded(old(Value()), now, start, deadline, sample)
    {
      failures := 0;
      startupPending := false;
      var interval := Max(SatSub(deadline, start), 1);
      var jittered := Jitter(interval * SECOND, sample);
      var seconds := Min(jittered / SECOND, I64_MAX);
      nextAttempt := Some(Max(SatAdd(start, seconds), SatAdd(now, 1)));
    }

    method RecordFailure(now: I64, c: Config, retryAfter: Option<Duration>, sample: U64)
      modifies this
      ensures Value() == Failed(old(Value()), now, c, retryAfter, sample)
    {
      failures := Min(failures + 1, U8_MAX);
      var exponent := Min(Max(failures - 1, 0), 6);
      var multiplier := PowerOfTwo(exponent);
      var exponential := ScaledBy(c.baseRetry, multiplier);
      var asked := if retryAfter.Some? then retryAfter.value else 0;
      var bounded := Min(Max(exponential, asked), c.maxRetry);
      var delay := Jitter(bounded, sample);
      var seconds := Min(Max(delay / SECOND, 1), I64_MAX);
      nextAttempt := Some(SatAdd(now, seconds));
    }

    method Disable()
      modifies this
      ensures Value() == Disabled(old(Value()))
    {
      nextAttempt := None;
      failures := 0;
      startupPending := false;
    }
  }

  // ----- one failure

  /** Saturating the doubled wait is invisible: the cap is what counts. */
  lemma BackoffExact(failures: nat, c: Config, retryAfter: Option<Duration>)
    ensures Backoff(failures, c, retryAfter) ==
            Min(Max(PowerOfTwo(Min(Max(failures - 1, 0), 6)) * c.baseRetry,
                    if retryAfter.Some? then retryAfter.value else 0), c.maxRetry)
  {
  }

  lemma {:induction false} PowersGrow(a: nat, b: nat)
    requires a <= b
    ensures PowerOfTwo(a) <= PowerOfTwo(b)
  {
    if a < b {
      PowersGrow(a, b - 1);
    }
  }

  /** The wait lies between the base and the cap, and never shrinks as failures pile up. */
  lemma BackoffGrows(a: nat, b: nat, c: Config, retryAfter: Option<Duration>)
    requires a <= b && ValidConfig(c)
    ensures c.baseRetry <= Backoff(a, c, retryAfter) <= Backoff(b, c, retryAfter) <= c.maxRetry
    ensures a >= 7 ==> Backoff(a, c, retryAfter) == Backoff(b, c, retryAfter)
  {
    BackoffExact(a, c, retryAfter);
    BackoffExact(b, c, retryAfter);
    var x, y := Min(Max(a - 1, 0), 6), Min(Max(b - 1, 0), 6);
    PowersGrow(x, y);
    PowersGrow(0, x);
    MulMonotone(PowerOfTwo(x), PowerOfTwo(y), c.baseRetry);
    MulMonotone(1, PowerOfTwo(x), c.baseRetry);
  }

  lemma WholeSecondsMonotone(a: Duration, b: Duration)
    requires a <= b
    ensures 1 <= WholeSeconds(a) <= WholeSeconds(b)
    ensures WholeSeconds(a) == 1 || WholeSeconds(a) * SECOND <= a
    ensures WholeSeconds(a) == I64_MAX || a < (WholeSeconds(a) + 1) * SECOND
  {
  }

  /** For one sample, delays never shrink as failures pile up, and stop growing at the seventh. */
  lemma RetriesGrow(a: nat, b: nat, c: Config, retryAfter: Option<Duration>, sample: U64)
    requires a <= b && ValidConfig(c)
    ensures RetrySeconds(a, c, retryAfter, sample) <= RetrySeconds(b, c, retryAfter, sample)
    ensures a >= 7 ==> RetrySeconds(a, c, retryAfter, sample) == RetrySeconds(b, c, retryAfter, sample)
  {
    BackoffGrows(a, b, c, retryAfter);
    JitterMonotone(Backoff(a, c, retryAfter), Backoff(b, c, retryAfter), sample, sample);
    WholeSecondsMonotone(Jitter(Backoff(a, c, retryAfter), sample), Jitter(Backoff(b, c, retryAfter), sample));
  }

  /** The least wait a configuration allows. */
  function LeastWait(c: Config): (w: I64)
    ensures w >= 1
  {
    WholeSeconds(Jitter(c.baseRetry, 0))
  }

  /** After a failure: at least a second and the least wait, at most 115 per cent of the cap. */
  lemma RetryWindow(s: Schedule, now: I64, c: Config, retryAfter: Option<Duration>, sample: U64)
    requires ValidConfig(c)
    ensures var next := Failed(s, now, c, retryAfter, sample).nextAttempt;
            && next.Some?
            && (next.value == I64_MAX || next.value >= now + LeastWait(c))
            && (next.value <= now + 1 || 100 * (next.value - now) * SECOND <= 115 * c.maxRetry)
  {
    var failures := Min(s.failures + 1, U8_MAX);
    var wait := Backoff(failures, c, retryAfter);
    BackoffGrows(failures, failures, c, retryAfter);
    JitterMonotone(c.baseRetry, wait, 0, sample);
    JitterRange(wait, sample);
    WholeSecondsMonotone(Jitter(c.baseRetry, 0), Jitter(wait, sample));
    WholeSecondsMonotone(Jitter(wait, sample), Jitter(wait, sample));
  }

  // ----- one success

  /** A refresh lands at the sampled fraction of its interval, in whole seconds. */
  lemma RefreshExact(start: I64, deadline: I64, sample: U64)
    ensures RefreshSeconds(start, deadline, sample) ==
            Min(Max(SatSub(deadline, start), 1) * Factor(sample) / JITTER_SCALE, U64_MAX / 1000)
  {
    var interval := Max(SatSub(deadline, start), 1);
    JitterExact(interval * SECOND, sample);
    var product := interval * Factor(sample);
    assert (interval * SECOND) / MILLI == 1000 * interval;
    assert 1000 * interval * Factor(sample) == 1000 * product;
    ThousandsOfSeconds(product);
  }

  lemma ThousandsOfSeconds(p: nat)
    ensures Min(1000 * p / JITTER_SCALE, U64_MAX) * MILLI / SECOND == Min(p / JITTER_SCALE, U64_MAX / 1000)
  {
    var millis := Min(1000 * p / JITTER_SCALE, U64_MAX);
    assert millis * MILLI / SECOND == millis / 1000;
    assert (1000 * p / JITTER_SCALE) / 1000 == p / JITTER_SCALE;
  }

  // ----- sleeping

  /** The scheduler never sleeps longer than the poll interval nor past the next attempt. */
  lemma DelayExact(s: Schedule, now: I64, c: Config)
    requires ValidConfig(c)
    ensures NextDelay(s, now, c.pollInterval) ==
            if s.startupPending then 0
            else if s.nextAttempt.None? then c.pollInterval
            else Min(c.pollInterval, Max(s.nextAttempt.value - now, 0) * SECOND)
  {
  }

  /** After a success there is always time to sleep, until the clock is at its last second. */
  lemma SleepsAfterSuccess(s: Schedule, now: I64, start: I64, deadline: I64, sample: U64, c: Config)
    requires ValidConfig(c)
    ensures NextDelay(Succeeded(s, now, start, deadline, sample), now, c.pollInterval) == 0 <==> now == I64_MAX
  {
    DelayExact(Succeeded(s, now, start, deadline, sample), now, c);
  }

  /** After a failure there is too, unless the attempt due at startup is still to be made. */
  lemma SleepsAfterFailure(s: Schedule, now: I64, c: Config, retryAfter: Option<Duration>, sample: U64)
    requires ValidConfig(c)
    ensures NextDelay(Failed(s, now, c, retryAfter, sample), now, c.pollInterval) == 0
            <==> s.startupPending || now == I64_MAX
  {
    RetryWindow(s, now, c, retryAfter, sample);
    DelayExact(Failed(s, now, c, retryAfter, sample), now, c);
  }

  /** And that can be: a failure recorded before the first cycle leaves no time to sleep. */
  lemma StartupStillPending(now: I64, c: Config, retryAfter: Option<Duration>, sample: U64)
    requires ValidConfig(c)
    ensures var s := ServeAll(Initial(true), [Marking(now), Failing(now, c, retryAfter, sample)]);
            NextDelay(s, now, c.pollInterval) == 0
  {
    var s := Initial(true);
    var calls := [Marking(now), Failing(now, c, retryAfter, sample)];
    assert calls[..1] == [Marking(now)] && [Marking(now)][..0] == [];
    assert ServeAll(s, calls[..1]) == Serve(ServeAll(s, []), Marking(now));
  }

  // ----- runs

  datatype Call =
    | Asking(ask: Ask)
    | Marking(at: I64)
    | Succeeding(now: I64, start: I64, deadline: I64, sample: U64)
    | Failing(now: I64, config: Config, retryAfter: Option<Duration>, sample: U64)
    | Disabling

  function Serve(s: Schedule, call: Call): Schedule {
    match call
    case Asking(ask) => Asked(s, ask)
    case Marking(at) => s.(lastAttempt := Some(at))
    case Succeeding(now, start, deadline, sample) => Succeeded(s, now, start, deadline, sample)
    case Failing(now, config, retryAfter, sample) => Failed(s, now, config, retryAfter, sample)
    case Disabling => Disabled(s)
  }

  function ServeAll(s: Schedule, calls: seq<Call>): Schedule {
    if |calls| == 0 then s else Serve(ServeAll(s, calls[..|calls| - 1]), calls[|calls| - 1])
  }

  /** The moment of an attempt, when call `i` makes one. */
  function AttemptAt(s: Schedule, calls: seq<Call>, i: nat): Option<I64>
    requires i < |calls|
  {
    match calls[i]
    case Asking(ask) => if Attempts(ServeAll(s, calls[..i]), ask) then Some(ask.now) else None
    case Marking(at) => Some(at)
    case _ => None
  }

  lemma Prefix(s: Schedule, calls: seq<Call>, n: nat, i: nat)
    requires i < n <= |calls|
    ensures AttemptAt(s, calls[..n], i) == AttemptAt(s, calls, i)
  {
    assert calls[..n][..i] == calls[..i];
  }

  /** Is `i` the last attempt of a run? */
  ghost predicate LastAttemptIs(s: Schedule, calls: seq<Call>, i: nat) {
    && i < |calls| && AttemptAt(s, calls, i).Some?
    && forall j :: i < j < |calls| ==> AttemptAt(s, calls, j).None?
  }

  ghost predicate NoAttempt(s: Schedule, calls: seq<Call>) {
    forall j :: 0 <= j < |calls| ==> AttemptAt(s, calls, j).None?
  }

  /** The recorded moment is the moment of the last attempt. */
  lemma {:induction false} LastAttemptRecorded(s: Schedule, calls: seq<Call>) returns (i: int)
    requires s.lastAttempt.None?
    ensures ServeAll(s, calls).lastAttempt.None? ==> NoAttempt(s, calls)
    ensures ServeAll(s, calls).lastAttempt.Some? ==>
              && 0 <= i && LastAttemptIs(s, calls, i)
              && AttemptAt(s, calls, i) == ServeAll(s, calls).lastAttempt
  {
    i := -1;
    if |calls| > 0 {
      var n := |calls| - 1;
      if AttemptAt(s, calls, n).Some? {
        i := n;
      } else {
        i := LastAttemptRecorded(s, calls[..n]);
        forall j | 0 <= j < n
          ensures AttemptAt(s, calls[..n], j) == AttemptAt(s, calls, j)
        {
          Prefix(s, calls, n, j);
        }
      }
    }
  }

  /** An attempt that nothing but an online hint explains. */
  predicate HintOnly(s: Schedule, a: Ask) {
    Attempts(s, a) && !s.startupPending && !a.requested && !TimerDue(s, a.now)
  }

  /** Over any run, such an attempt comes at least the minimum interval after the attempt before it. */
  lemma {:induction false} HintsSpaced(hasCredential: bool, calls: seq<Call>, a: Ask, i: nat)
    requires HintOnly(ServeAll(Initial(hasCredential), calls), a)
    requires LastAttemptIs(Initial(hasCredential), calls, i)
    ensures SatSub(a.now, AttemptAt(Initial(hasCredential), calls, i).value) >= a.minimum
    ensures a.minimum > I64_MIN ==> a.now - AttemptAt(Initial(hasCredential), calls, i).value >= a.minimum
  {
    var s := Initial(hasCredential);
    var j := LastAttemptRecorded(s, calls);
    assert AttemptAt(s, calls, i).Some?;
    assert i == j;
  }

  /** The attempt due at startup is made at most once in a run: no asked attempt leaves it pending, ever. */
  lemma {:induction false} StartupOnce(s: Schedule, calls: seq<Call>, i: nat)
    requires i < |calls| && calls[i].Asking? && AttemptAt(s, calls, i).Some?
    ensures !ServeAll(s, calls).startupPending
  {
    var n := |calls| - 1;
    if i < n {
      Prefix(s, calls, n, i);
      StartupOnce(s, calls[..n], i);
    }
  }

  // ----- polls

  function AskAll(s: Schedule, asks: seq<Ask>): Schedule {
    if |asks| == 0 then s else Asked(AskAll(s, asks[..|asks| - 1]), asks[|asks| - 1])
  }

  /** A plain poll: nobody asked, and no network came up. */
  predicate Plain(a: Ask) {
    !a.requested && !a.onlineHint
  }

  /** Plain polls before the next attempt do nothing, and the one that reaches it attempts. */
  lemma {:induction false} PolledUntilDue(s: Schedule, asks: seq<Ask>, a: Ask)
    requires !s.startupPending && s.nextAttempt.Some?
    requires forall i :: 0 <= i < |asks| ==>
                           asks[i].hasCredential && Plain(asks[i]) && asks[i].now < s.nextAttempt.value
    requires a.hasCredential && Plain(a)
    ensures AskAll(s, asks) == s
    ensures Attempts(AskAll(s, asks), a) <==> s.nextAttempt.value <= a.now
  {
    if |asks| > 0 {
      PolledUntilDue(s, asks[..|asks| - 1], asks[|asks| - 1]);
    }
  }

  /**
   After a success the next attempt is set to the sampled fraction of the refresh interval, and at least
   a second away, up to saturation of time and of milliseconds; plain polls wait for it and then attempt.
   */
  lemma {:induction false} SuccessWaits(s: Schedule, now: I64, start: I64, deadline: I64, sample: U64, asks: seq<Ask>,
                                        a: Ask)
    requires var next := Succeeded(s, now, start, deadline, sample).nextAttempt;
             && a.hasCredential && Plain(a) && next.Some?
             && forall i :: 0 <= i < |asks| ==> asks[i].hasCredential && Plain(asks[i]) && asks[i].now < next.value
    ensures var t := Succeeded(s, now, start, deadline, sample);
            var interval := Max(Min(deadline - start, I64_MAX), 1);
            var at := start + Min(interval * (8500 + sample % 3001) / 10000, U64_MAX / 1000);
            && t.failures == 0 && t.nextAttempt == Some(Min(Max(at, now + 1), I64_MAX))
            && AskAll(t, asks) == t
            && (Attempts(t, a) <==> t.nextAttempt.value <= a.now)
  {
    RefreshExact(start, deadline, sample);
    PolledUntilDue(Succeeded(s, now, start, deadline, sample), asks, a);
  }

  /** A failure is retried when its wait is over, and not before, by plain polls. */
  lemma {:induction false} FailureWaits(s: Schedule, now: I64, c: Config, retryAfter: Option<Duration>, sample: U64,
                                        asks: seq<Ask>, a: Ask)
    requires !s.startupPending && a.hasCredential && Plain(a)
    requires var next := Failed(s, now, c, retryAfter, sample).nextAttempt;
             && next.Some?
             && forall i :: 0 <= i < |asks| ==> asks[i].hasCredential && Plain(asks[i]) && asks[i].now < next.value
    ensures var t := Failed(s, now, c, retryAfter, sample);
            AskAll(t, asks) == t && (Attempts(t, a) <==> t.nextAttempt.value <= a.now)
  {
    PolledUntilDue(Failed(s, now, c, retryAfter, sample), asks, a);
  }

  /** Once a poll found no credential, plain polls never attempt again until an outcome is recorded. */
  lemma {:induction false} DisabledQuiet(s: Schedule, asks: seq<Ask>, i: nat, a: Ask)
    requires i < |asks| && !asks[i].hasCredential && Plain(a)
    requires forall j :: i < j < |asks| ==> Plain(asks[j])
    ensures AskAll(s, asks).nextAttempt.None? && !AskAll(s, asks).startupPending && !Attempts(AskAll(s, asks), a)
  {
    if i < |asks| - 1 {
      DisabledQuiet(s, asks[..|asks| - 1], i, asks[|asks| - 1]);
    }
  }

  // ----- an outage

  /** A scheduler cycle whose request, if it makes one, fails at `failedAt`. */
  datatype Poll = Poll(ask: Ask, failedAt: I64, retryAfter: Option<Duration>, sample: U64)

  function Polled(s: Schedule, c: Config, p: Poll): Schedule {
    var asked := Asked(s, p.ask);
    if Attempts(s, p.ask) then Failed(asked, p.failedAt, c, p.retryAfter, p.sample) else asked
  }

  /** How many attempts nobody asked for a run of such cycles makes: timers and online hints. */
  function Unasked(s: Schedule, c: Config, polls: seq<Poll>): nat
    decreases |polls|
  {
    if |polls| == 0 then 0
    else
      var p := polls[0];
      (if Attempts(s, p.ask) && !p.ask.requested then 1 else 0) + Unasked(Polled(s, c, p), c, polls[1..])
  }

  /** Some attempt was made, and the timer, if set, waits for the least wait after it. */
  predicate Paced(s: Schedule, c: Config) {
    && s.lastAttempt.Some? && !s.startupPending
    && (s.nextAttempt.Some? ==>
          s.nextAttempt.value == I64_MAX || s.nextAttempt.value >= s.lastAttempt.value + LeastWait(c))
  }

  /** Cycles in the order of their clock readings, all by `end`, failing after they asked. */
  predicate InOrder(start: I64, polls: seq<Poll>, minimum: I64, end: int)
    decreases |polls|
  {
    |polls| == 0
    || (var p := polls[0];
        && start <= p.ask.now <= p.failedAt && p.ask.now <= end < I64_MAX && p.ask.minimum == minimum
        && InOrder(p.ask.now, polls[1..], minimum, end))
  }

  /** One cycle keeps the pace, and an attempt nobody asked for comes no sooner than the pace allows. */
  lemma PacedStep(s: Schedule, c: Config, p: Poll, minimum: I64)
    requires ValidConfig(c) && Paced(s, c) && minimum >= 0 && p.ask.minimum == minimum
    requires s.lastAttempt.value <= p.ask.now <= p.failedAt && p.ask.now < I64_MAX
    ensures var t := Polled(s, c, p);
            && Paced(t, c)
            && (if Attempts(s, p.ask) then t.lastAttempt == Some(p.ask.now) else t.lastAttempt == s.lastAttempt)
            && (Attempts(s, p.ask) && !p.ask.requested ==>
                  p.ask.now >= s.lastAttempt.value + Min(LeastWait(c), minimum))
  {
    RetryWindow(Asked(s, p.ask), p.failedAt, c, p.retryAfter, p.sample);
  }

  lemma {:induction false} InOrderLater(start: I64, later: I64, polls: seq<Poll>, minimum: I64, end: int)
    requires later <= start && InOrder(start, polls, minimum, end)
    ensures InOrder(later, polls, minimum, end)
  {
  }

  /**
   However often it is polled and hinted at while its server is down, a client makes at most one
   attempt that nobody asked for per least wait or minimum interval, whichever is shorter.
   */
  lemma {:induction false} OutageThrottled(s: Schedule, c: Config, polls: seq<Poll>, minimum: I64, end: int)
    requires ValidConfig(c) && Paced(s, c) && minimum >= 0 && InOrder(s.lastAttempt.value, polls, minimum, end)
    ensures Unasked(s, c, polls) > 0 ==>
              s.lastAttempt.value + Unasked(s, c, polls) * Min(LeastWait(c), minimum) <= end
    decreases |polls|
  {
    if |polls| > 0 {
      var p := polls[0];
      var t := Polled(s, c, p);
      PacedStep(s, c, p, minimum);
      if t.lastAttempt != Some(p.ask.now) {
        InOrderLater(p.ask.now, t.lastAttempt.value, polls[1..], minimum, end);
      }
      OutageThrottled(t, c, polls[1..], minimum, end);
      OneMore(Unasked(t, c, polls[1..]), Min(LeastWait(c), minimum));
    }
  }

  lemma OneMore(n: nat, w: nat)
    ensures (n + 1) * w == n * w + w && n * w >= 0 && (n == 0 ==> n * w == 0)
  {
  }
}
