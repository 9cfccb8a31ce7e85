/** Sequences of calls that the frame pipeline and the current limiter make,
    possibly interleaved with the reporter's calls, and what they add up to. */
module Traces {
  import opened Words
  import opened StatsModel

  /** One hook call: a detected, a shown or a correctly received frame, or
      one frame processed by the current limiter. */
  datatype Event =
    | Total
    | Show
    | Good
    | Power(limited: bool, milliamps: u32, underpowerDesiredMilliamps: u32)

  function Apply(s: Stats, e: Event): Stats
  {
    match e
    case Total => IncreaseTotal(s)
    case Show => IncreaseShow(s)
    case Good => IncreaseGood(s)
    case Power(limited, mA, desired) => UpdatePowerStats(s, limited, mA, desired)
  }

  /** The state after the calls `evs`, in order. */
  function Run(s: Stats, evs: seq<Event>): Stats
    decreases |evs|
  {
    if evs == [] then s else Run(Apply(s, evs[0]), evs[1..])
  }

  /** How many of the calls are the frame hook `e`. */
  function Count(evs: seq<Event>, e: Event): nat
    requires !e.Power?
  {
    if evs == [] then 0 else (if evs[0] == e then 1 else 0) + Count(evs[1..], e)
  }

  /** How many of the calls are current-limiter calls. */
  function PowerCount(evs: seq<Event>): nat
  {
    if evs == [] then 0 else (if evs[0].Power? then 1 else 0) + PowerCount(evs[1..])
  }

  /** How many of the calls are current-limiter calls for a limited frame. */
  function LimitedCount(evs: seq<Event>): nat
  {
    if evs == [] then 0
    else (if evs[0].Power? && evs[0].limited then 1 else 0) + LimitedCount(evs[1..])
  }

  /** The allowed current of all current-limiter calls. */
  function MilliampsTotal(evs: seq<Event>): nat
  {
    if evs == [] then 0
    else (if evs[0].Power? then evs[0].milliamps as nat else 0) + MilliampsTotal(evs[1..])
  }

  /** The desired current of all current-limiter calls, a limited frame's
      counted twice as the firmware adds it. */
  function DesiredTotal(evs: seq<Event>): nat
  {
    if evs == [] then 0
    else (if evs[0].Power? then (if evs[0].limited then 2 else 1) * evs[0].underpowerDesiredMilliamps as nat
          else 0) + DesiredTotal(evs[1..])
  }

  /** `n` copies of one call. */
  function Repeat(e: Event, n: nat): (r: seq<Event>)
    ensures |r| == n && forall i :: 0 <= i < n ==> r[i] == e
  {
    if n == 0 then [] else [e] + Repeat(e, n - 1)
  }

  /** The hooks never touch the period start or the snapshot. */
  lemma {:induction false} RunKeepsSnapshot(s: Stats, evs: seq<Event>)
    ensures Run(s, evs).startTime == s.startTime
    ensures SameSnapshot(s, Run(s, evs))
    decreases |evs|
  {
    if evs != [] {
      RunKeepsSnapshot(Apply(s, evs[0]), evs[1..]);
    }
  }

  /** Each current-period counter ends up at its start value plus the
      number of its hook calls, modulo 2^16. */
  lemma {:induction false} RunCounters(s: Stats, evs: seq<Event>)
    ensures Run(s, evs).totalFrames as int == (s.totalFrames as int + Count(evs, Total)) % TWO_16
    ensures Run(s, evs).showFrames as int == (s.showFrames as int + Count(evs, Show)) % TWO_16
    ensures Run(s, evs).goodFrames as int == (s.goodFrames as int + Count(evs, Good)) % TWO_16
    decreases |evs|
  {
    if evs != [] {
      var s', rest := Apply(s, evs[0]), evs[1..];
      RunCounters(s', rest);
      var dt, ds, dg := if evs[0] == Total then 1 else 0, if evs[0] == Show then 1 else 0,
                        if evs[0] == Good then 1 else 0;
      assert s'.totalFrames as int == (s.totalFrames as int + dt) % TWO_16;
      assert s'.showFrames as int == (s.showFrames as int + ds) % TWO_16;
      assert s'.goodFrames as int == (s.goodFrames as int + dg) % TWO_16;
      Wrap16Add(s.totalFrames as int + dt, Count(rest, Total));
      Wrap16Add(s.showFrames as int + ds, Count(rest, Show));
      Wrap16Add(s.goodFrames as int + dg, Count(rest, Good));
    }
  }

  /** `framesCount` ends up at its start value plus the number of
      current-limiter calls, modulo 2^64. */
  lemma {:induction false} RunFramesCount(s: Stats, evs: seq<Event>)
    ensures Run(s, evs).framesCount as int == (s.framesCount as int + PowerCount(evs)) % TWO_64
    decreases |evs|
  {
    if evs != [] {
      var e, rest := evs[0], evs[1..];
      RunFramesCount(Apply(s, e), rest);
      var d := if e.Power? then 1 else 0;
      assert Apply(s, e).framesCount as int == (s.framesCount as int + d) % TWO_64;
      Wrap64Add(s.framesCount as int + d, PowerCount(rest));
    }
  }

  /** `underpowerFramesCount` ends up at its start value plus the number of
      current-limiter calls for limited frames, modulo 2^64. */
  lemma {:induction false} RunUnderpowerFramesCount(s: Stats, evs: seq<Event>)
    ensures Run(s, evs).underpowerFramesCount as int
         == (s.underpowerFramesCount as int + LimitedCount(evs)) % TWO_64
    decreases |evs|
  {
    if evs != [] {
      var e, rest := evs[0], evs[1..];
      RunUnderpowerFramesCount(Apply(s, e), rest);
      var d := if e.Power? && e.limited then 1 else 0;
      assert Apply(s, e).underpowerFramesCount as int == (s.underpowerFramesCount as int + d) % TWO_64;
      Wrap64Add(s.underpowerFramesCount as int + d, LimitedCount(rest));
    }
  }

  /** `milliampsSum` ends up at its start value plus the allowed current of
      all current-limiter calls, modulo 2^64. */
  lemma {:induction false} RunMilliampsSum(s: Stats, evs: seq<Event>)
    ensures Run(s, evs).milliampsSum as int == (s.milliampsSum as int + MilliampsTotal(evs)) % TWO_64
    decreases |evs|
  {
    if evs != [] {
      var e, rest := evs[0], evs[1..];
      RunMilliampsSum(Apply(s, e), rest);
      var d := if e.Power? then e.milliamps as int else 0;
      assert Apply(s, e).milliampsSum as int == (s.milliampsSum as int + d) % TWO_64;
      Wrap64Add(s.milliampsSum as int + d, MilliampsTotal(rest));
    }
  }

  /** `underpowerDesiredMilliampsSum` ends up at its start value plus the
      desired current of all current-limiter calls, a limited frame's
      counted twice, modulo 2^64. */
  lemma {:induction false} RunDesiredSum(s: Stats, evs: seq<Event>)
    ensures Run(s, evs).underpowerDesiredMilliampsSum as int
         == (s.underpowerDesiredMilliampsSum as int + DesiredTotal(evs)) % TWO_64
    decreases |evs|
  {
    if evs != [] {
      var e, rest := evs[0], evs[1..];
      RunDesiredSum(Apply(s, e), rest);
      var d := if e.Power? then (if e.limited then 2 else 1) * e.underpowerDesiredMilliamps as int else 0;
      assert Apply(s, e).underpowerDesiredMilliampsSum as int
          == (s.underpowerDesiredMilliampsSum as int + d) % TWO_64;
      Wrap64Add(s.underpowerDesiredMilliampsSum as int + d, DesiredTotal(rest));
    }
  }

  /** Between two resets the cumulative counts and sums only grow, by
      exactly what the calls bring, as long as none of them reaches 2^64. */
  lemma CumulativeSumsGrow(s: Stats, evs: seq<Event>)
    requires Inv(s)
    requires s.framesCount as int + PowerCount(evs) < TWO_64
    requires s.milliampsSum as int + MilliampsTotal(evs) < TWO_64
    requires s.underpowerDesiredMilliampsSum as int + DesiredTotal(evs) < TWO_64
    ensures Run(s, evs).framesCount as int == s.framesCount as int + PowerCount(evs)
    ensures Run(s, evs).milliampsSum as int == s.milliampsSum as int + MilliampsTotal(evs)
    ensures Run(s, evs).underpowerDesiredMilliampsSum as int
         == s.underpowerDesiredMilliampsSum as int + DesiredTotal(evs)
    ensures Run(s, evs).underpowerFramesCount as int == s.underpowerFramesCount as int + LimitedCount(evs)
  {
    LimitedAtMostPower(evs);
    RunFramesCount(s, evs);
    RunUnderpowerFramesCount(s, evs);
    RunMilliampsSum(s, evs);
    RunDesiredSum(s, evs);
  }

  /** As long as the frame count does not wrap, no sequence of hook calls
      breaks the invariants. */
  lemma {:induction false} RunKeepsInv(s: Stats, evs: seq<Event>)
    requires Inv(s)
    requires s.framesCount as int + PowerCount(evs) < TWO_64
    ensures Inv(Run(s, evs))
    decreases |evs|
  {
    if evs != [] {
      RunKeepsInv(Apply(s, evs[0]), evs[1..]);
    }
  }

  /** Since a full reset, `framesCount` is the number of current-limiter
      calls and `underpowerFramesCount` the number of them for limited
      frames, as long as fewer than 2^64 calls were made. */
  lemma CountsSinceReset(t: u32, evs: seq<Event>)
    requires PowerCount(evs) < TWO_64
    ensures Run(Reset(t), evs).framesCount as int == PowerCount(evs)
    ensures Run(Reset(t), evs).underpowerFramesCount as int == LimitedCount(evs)
    ensures Run(Reset(t), evs).underpowerFramesCount <= Run(Reset(t), evs).framesCount
  {
    LimitedAtMostPower(evs);
    RunFramesCount(Reset(t), evs);
    RunUnderpowerFramesCount(Reset(t), evs);
  }

  lemma {:induction false} LimitedAtMostPower(evs: seq<Event>)
    ensures LimitedCount(evs) <= PowerCount(evs)
    decreases |evs|
  {
    if evs != [] {
      LimitedAtMostPower(evs[1..]);
    }
  }

  /** A period that starts with zero counters and sees fewer than 2^16 hook
      calls of each kind, at least one of them a detected frame, leaves a
      snapshot of exactly those calls, the good count clamped to the
      received count. */
  lemma PeriodSnapshot(s: Stats, evs: seq<Event>, t: u32)
    requires CountersZero(s)
    requires 0 < Count(evs, Total) < TWO_16
    requires Count(evs, Show) < TWO_16 && Count(evs, Good) < TWO_16
    ensures Update(Run(s, evs), t).finalTotalFrames as int == Count(evs, Total)
    ensures Update(Run(s, evs), t).finalShowFrames as int == Count(evs, Show)
    ensures Update(Run(s, evs), t).finalGoodFrames as int
         == if Count(evs, Good) <= Count(evs, Total) then Count(evs, Good) else Count(evs, Total)
    ensures SamePower(Run(s, evs), Update(Run(s, evs), t))
  {
    RunCounters(s, evs);
  }

  lemma {:induction false} CountConcat(a: seq<Event>, b: seq<Event>, e: Event)
    requires !e.Power?
    ensures Count(a + b, e) == Count(a, e) + Count(b, e)
    decreases |a|
  {
    if a == [] {
      assert a + b == b;
    } else {
      assert (a + b)[1..] == a[1..] + b;
      CountConcat(a[1..], b, e);
    }
  }

  lemma {:induction false} CountRepeat(x: Event, n: nat, e: Event)
    requires !e.Power?
    ensures Count(Repeat(x, n), e) == if x == e then n else 0
    decreases n
  {
    if n > 0 {
      assert Repeat(x, n)[1..] == Repeat(x, n - 1);
      CountRepeat(x, n - 1, e);
    }
  }

  /** Ten detected frames and twelve good ones (the good hook over-counted)
      roll over into a snapshot of ten good frames, not twelve. */
  lemma OverCountedGoodFramesAreClamped(t0: u32, t: u32)
    ensures Update(Run(Reset(t0), Repeat(Total, 10) + Repeat(Good, 12)), t).finalGoodFrames == 10
    ensures Update(Run(Reset(t0), Repeat(Total, 10) + Repeat(Good, 12)), t).finalTotalFrames == 10
  {
    var evs := Repeat(Total, 10) + Repeat(Good, 12);
    CountConcat(Repeat(Total, 10), Repeat(Good, 12), Total);
    CountConcat(Repeat(Total, 10), Repeat(Good, 12), Show);
    CountConcat(Repeat(Total, 10), Repeat(Good, 12), Good);
    CountRepeat(Total, 10, Total);
    CountRepeat(Total, 10, Show);
    CountRepeat(Total, 10, Good);
    CountRepeat(Good, 12, Total);
    CountRepeat(Good, 12, Show);
    CountRepeat(Good, 12, Good);
    PeriodSnapshot(Reset(t0), evs, t);
  }

  /** The received counter wraps: a period of exactly 2^16 detected frames
      leaves `totalFrames` at 0, so its rollover keeps the old snapshot as
      if the period had been empty. */
  lemma WrappedPeriodKeepsSnapshot(s: Stats, t: u32)
    requires CountersZero(s)
    ensures SameSnapshot(s, Update(Run(s, Repeat(Total, TWO_16)), t))
  {
    RunCounters(s, Repeat(Total, TWO_16));
    CountRepeat(Total, TWO_16, Total);
    RunKeepsSnapshot(s, Repeat(Total, TWO_16));
  }

  /** A period of 2^16 + n detected frames, 0 < n < 2^16, rolls over into a
      snapshot of n received frames. */
  lemma WrappedPeriodTakesRemainder(s: Stats, n: nat, t: u32)
    requires CountersZero(s)
    requires 0 < n < TWO_16
    ensures Update(Run(s, Repeat(Total, TWO_16 + n)), t).finalTotalFrames as int == n
  {
    RunCounters(s, Repeat(Total, TWO_16 + n));
    CountRepeat(Total, TWO_16 + n, Total);
  }

  /** One limited frame at 1000 mA that wanted 2000 mA, right after a reset:
      one frame, one limited frame, 1000 mA allowed, and 4000 mA desired,
      because the desired current of a limited frame is added twice. */
  lemma PowerScenario(t: u32)
    ensures Run(Reset(t), [Power(true, 1000, 2000)]).framesCount == 1
    ensures Run(Reset(t), [Power(true, 1000, 2000)]).underpowerFramesCount == 1
    ensures Run(Reset(t), [Power(true, 1000, 2000)]).milliampsSum == 1000
    ensures Run(Reset(t), [Power(true, 1000, 2000)]).underpowerDesiredMilliampsSum == 4000
  {
  }

  /** A call of the reporter, which may come between any two hook calls. */
  datatype ReporterCall =
    | Rollover(currentTime: u32)
    | Report(curTime: u32)
    | Light(curTime: u32, hasData: bool)

  /** A call made to the object other than a full reset. */
  datatype Call = Hook(e: Event) | Reporter(r: ReporterCall)

  function ApplyReporter(s: Stats, c: ReporterCall): Stats
  {
    match c
    case Rollover(t) => Update(s, t)
    case Report(t) => PrintEffect(s, t)
    case Light(t, hasData) => LightReset(s, t, hasData)
  }

  /** The state after the calls `calls`, in order. */
  function Session(s: Stats, calls: seq<Call>): Stats
    decreases |calls|
  {
    if calls == [] then s
    else Session(match calls[0]
                 case Hook(e) => Apply(s, e)
                 case Reporter(c) => ApplyReporter(s, c), calls[1..])
  }

  /** The hook calls of a session, in order. */
  function Hooks(calls: seq<Call>): seq<Event>
  {
    if calls == [] then []
    else (if calls[0].Hook? then [calls[0].e] else []) + Hooks(calls[1..])
  }

  /** The power statistics after hook calls depend only on the power
      statistics before them. */
  lemma {:induction false} RunPowerFromPower(s1: Stats, s2: Stats, evs: seq<Event>)
    requires SamePower(s1, s2)
    ensures SamePower(Run(s1, evs), Run(s2, evs))
    decreases |evs|
  {
    if evs != [] {
      RunPowerFromPower(Apply(s1, evs[0]), Apply(s2, evs[0]), evs[1..]);
    }
  }

  /** Reporter calls do not touch the power statistics: after any session
      without a full reset they are what its hook calls alone make them. */
  lemma {:induction false} SessionPower(s: Stats, calls: seq<Call>)
    ensures SamePower(Run(s, Hooks(calls)), Session(s, calls))
    decreases |calls|
  {
    if calls != [] {
      var c, rest := calls[0], calls[1..];
      match c
      case Hook(e) =>
        assert Hooks(calls) == [e] + Hooks(rest);
        assert ([e] + Hooks(rest))[1..] == Hooks(rest);
        SessionPower(Apply(s, e), rest);
      case Reporter(r) =>
        assert Hooks(calls) == Hooks(rest);
        SessionPower(ApplyReporter(s, r), rest);
        RunPowerFromPower(s, ApplyReporter(s, r), Hooks(rest));
    }
  }

  /** Between two full resets, across any number of rollovers, reports and
      light resets, the cumulative counts and sums only grow, by exactly
      what the current-limiter calls bring, as long as none reaches 2^64. */
  lemma SessionSumsGrow(s: Stats, calls: seq<Call>)
    requires Inv(s)
    requires s.framesCount as int + PowerCount(Hooks(calls)) < TWO_64
    requires s.milliampsSum as int + MilliampsTotal(Hooks(calls)) < TWO_64
    requires s.underpowerDesiredMilliampsSum as int + DesiredTotal(Hooks(calls)) < TWO_64
    ensures Session(s, calls).framesCount as int == s.framesCount as int + PowerCount(Hooks(calls))
    ensures Session(s, calls).milliampsSum as int == s.milliampsSum as int + MilliampsTotal(Hooks(calls))
    ensures Session(s, calls).underpowerDesiredMilliampsSum as int
         == s.underpowerDesiredMilliampsSum as int + DesiredTotal(Hooks(calls))
    ensures Session(s, calls).underpowerFramesCount as int
         == s.underpowerFramesCount as int + LimitedCount(Hooks(calls))
  {
    SessionPower(s, calls);
    CumulativeSumsGrow(s, Hooks(calls));
  }
}
