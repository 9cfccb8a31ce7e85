/** The value of the firmware's statistics object and the state change each
    of its operations makes, as functions from the old value to the new. */
module StatsModel {
  import opened Words

  /** The integer fields of the statistics object: the start of the current
      period, the current period's frame counters, the snapshot of the last
      period that saw frames, and the cumulative power-limiter counts and
      sums. */
  datatype Stats = Stats(
    startTime: u32,
    goodFrames: u16,
    showFrames: u16,
    totalFrames: u16,
    finalGoodFrames: u16,
    finalShowFrames: u16,
    finalTotalFrames: u16,
    milliampsSum: u64,
    underpowerDesiredMilliampsSum: u64,
    underpowerFramesCount: u64,
    framesCount: u64)

  /** The object as it is declared: every field zero. */
  const Initial: Stats := Stats(0, 0, 0, 0, 0, 0, 0, 0, 0, 0, 0)

  /** The two invariants the object keeps: the snapshot never shows more
      good frames than received ones, and no more frames are counted as
      current-limited than were processed (the latter only until
      `framesCount` wraps at 2^64). */
  predicate Inv(s: Stats)
  {
    s.finalGoodFrames <= s.finalTotalFrames && s.underpowerFramesCount <= s.framesCount
  }

  /** The current period's three counters are zero. */
  predicate CountersZero(s: Stats)
  {
    s.goodFrames == 0 && s.showFrames == 0 && s.totalFrames == 0
  }

  /** `r` keeps the snapshot of `s`. */
  predicate SameSnapshot(s: Stats, r: Stats)
  {
    r.finalGoodFrames == s.finalGoodFrames
    && r.finalShowFrames == s.finalShowFrames
    && r.finalTotalFrames == s.finalTotalFrames
  }

  /** `r` keeps the power-limiter counts and sums of `s`. */
  predicate SamePower(s: Stats, r: Stats)
  {
    r.milliampsSum == s.milliampsSum
    && r.underpowerDesiredMilliampsSum == s.underpowerDesiredMilliampsSum
    && r.underpowerFramesCount == s.underpowerFramesCount
    && r.framesCount == s.framesCount
  }

  /** A new frame was detected: the received counter steps by one, modulo
      2^16, and nothing else changes. */
  function IncreaseTotal(s: Stats): (r: Stats)
    ensures r.totalFrames as int == (s.totalFrames as int + 1) % TWO_16
    ensures r.(totalFrames := s.totalFrames) == s
    ensures Inv(s) ==> Inv(r)
  {
    s.(totalFrames := Inc16(s.totalFrames))
  }

  /** A frame was shown: the shown counter steps by one, modulo 2^16, and
      nothing else changes. */
  function IncreaseShow(s: Stats): (r: Stats)
    ensures r.showFrames as int == (s.showFrames as int + 1) % TWO_16
    ensures r.(showFrames := s.showFrames) == s
    ensures Inv(s) ==> Inv(r)
  {
    s.(showFrames := Inc16(s.showFrames))
  }

  /** A frame was received correctly: the good counter steps by one, modulo
      2^16, and nothing else changes. */
  function IncreaseGood(s: Stats): (r: Stats)
    ensures r.goodFrames as int == (s.goodFrames as int + 1) % TWO_16
    ensures r.(goodFrames := s.goodFrames) == s
    ensures Inv(s) ==> Inv(r)
  {
    s.(goodFrames := Inc16(s.goodFrames))
  }

  /** The current limiter processed a frame. `limited` stands for the
      floating-point test that the frame was limited by 100%. The desired
      current is added once unconditionally and once more for a limited
      frame, as the firmware does. */
  function UpdatePowerStats(s: Stats, limited: bool, milliamps: u32, underpowerDesiredMilliamps: u32): (r: Stats)
    ensures r.framesCount as int == (s.framesCount as int + 1) % TWO_64
    ensures r.underpowerFramesCount as int
         == (s.underpowerFramesCount as int + (if limited then 1 else 0)) % TWO_64
    ensures r.milliampsSum as int == (s.milliampsSum as int + milliamps as int) % TWO_64
    ensures r.underpowerDesiredMilliampsSum as int
         == (s.underpowerDesiredMilliampsSum as int
             + (if limited then 2 else 1) * underpowerDesiredMilliamps as int) % TWO_64
    ensures r.startTime == s.startTime
    ensures r.goodFrames == s.goodFrames && r.showFrames == s.showFrames && r.totalFrames == s.totalFrames
    ensures SameSnapshot(s, r)
    ensures Inv(s) && s.framesCount as int < TWO_64 - 1 ==> Inv(r)
  {
    var frames := Inc64(s.framesCount);
    var underFrames := if limited then Inc64(s.underpowerFramesCount) else s.underpowerFramesCount;
    var desired := if limited then Add64(s.underpowerDesiredMilliampsSum, underpowerDesiredMilliamps)
                   else s.underpowerDesiredMilliampsSum;
    var mA := Add64(s.milliampsSum, milliamps);
    Wrap64Add(s.underpowerDesiredMilliampsSum as int + underpowerDesiredMilliamps as int,
              underpowerDesiredMilliamps as int);
    s.(framesCount := frames,
       underpowerFramesCount := underFrames,
       milliampsSum := mA,
       underpowerDesiredMilliampsSum := Add64(desired, underpowerDesiredMilliamps))
  }

  /** Period rollover. A period whose `totalFrames` is nonzero becomes the
      snapshot, its good count clamped to its received count; when
      `totalFrames` is 0 (no frames, or a multiple of 2^16 of them, since
      the counter wraps) the snapshot stays as it was. Either way the new period starts
      at `currentTime` with zero counters, and the power statistics are not
      touched. */
  function Update(s: Stats, currentTime: u32): (r: Stats)
    ensures s.totalFrames > 0 ==>
              && r.finalTotalFrames == s.totalFrames
              && r.finalShowFrames == s.showFrames
              && r.finalGoodFrames == (if s.goodFrames <= s.totalFrames then s.goodFrames else s.totalFrames)
    ensures s.totalFrames > 0 ==> r.finalGoodFrames <= r.finalTotalFrames
    ensures s.totalFrames == 0 ==> SameSnapshot(s, r)
    ensures r.startTime == currentTime && CountersZero(r)
    ensures SamePower(s, r)
    ensures Inv(s) ==> Inv(r)
  {
    var snapshot :=
      if s.totalFrames > 0 then
        s.(finalShowFrames := s.showFrames,
           finalGoodFrames := Min16(s.goodFrames, s.totalFrames),
           finalTotalFrames := s.totalFrames)
      else s;
    snapshot.(startTime := currentTime, goodFrames := 0, totalFrames := 0, showFrames := 0)
  }

  /** The state change made by printing the report: the period restarts at
      `curTime` with zero counters; the snapshot and the power statistics
      the report reads are kept. */
  function PrintEffect(s: Stats, curTime: u32): (r: Stats)
    ensures r.startTime == curTime && CountersZero(r)
    ensures SameSnapshot(s, r) && SamePower(s, r)
    ensures Inv(s) ==> Inv(r)
  {
    s.(startTime := curTime, goodFrames := 0, totalFrames := 0, showFrames := 0)
  }

  /** Full reset: the period starts at `currentTime` and every counter,
      snapshot field and power statistic is zero. */
  function Reset(currentTime: u32): (r: Stats)
    ensures r.startTime == currentTime && CountersZero(r)
    ensures r.finalGoodFrames == 0 && r.finalShowFrames == 0 && r.finalTotalFrames == 0
    ensures r.milliampsSum == 0 && r.underpowerDesiredMilliampsSum == 0
    ensures r.underpowerFramesCount == 0 && r.framesCount == 0
    ensures Inv(r)
  {
    Initial.(startTime := currentTime)
  }

  /** Light reset: the counters of the current period are zeroed, its start
      moves to `curTime` only when `hasData` holds, and the snapshot and the
      long-run power statistics are kept. */
  function LightReset(s: Stats, curTime: u32, hasData: bool): (r: Stats)
    ensures hasData ==> r.startTime == curTime
    ensures !hasData ==> r.startTime == s.startTime
    ensures CountersZero(r)
    ensures SameSnapshot(s, r) && SamePower(s, r)
    ensures Inv(s) ==> Inv(r)
  {
    var started := if hasData then s.(startTime := curTime) else s;
    started.(goodFrames := 0, totalFrames := 0, showFrames := 0)
  }

  /** Printing changes the state exactly as a light reset that has data. */
  lemma PrintIsLightReset(s: Stats, t: u32)
    ensures PrintEffect(s, t) == LightReset(s, t, true)
  {
  }

  /** When `totalFrames` is 0, a rollover changes the state exactly as
      printing does: it moves the period start and zeroes the three
      counters, and the snapshot is kept. */
  lemma EmptyRolloverIsPrint(s: Stats, t: u32)
    requires s.totalFrames == 0
    ensures Update(s, t) == PrintEffect(s, t)
  {
  }

  /** A second rollover with no frames in between keeps the snapshot the
      first one took: empty periods do not overwrite the last report. */
  lemma RolloverTwiceKeepsSnapshot(s: Stats, t1: u32, t2: u32)
    ensures SameSnapshot(Update(s, t1), Update(Update(s, t1), t2))
    ensures Update(Update(s, t1), t2) == Update(s, t1).(startTime := t2)
  {
  }
}
