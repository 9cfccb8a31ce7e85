/** The firmware's single statistics object: the frame pipeline and the
    current limiter update its fields in place, and the periodic reporter
    rolls the period over, prints and resets it. */
module Statistics {
  import opened Words
  import opened StatsModel

  class Statistics {
    var startTime: u32
    var goodFrames: u16
    var showFrames: u16
    var totalFrames: u16
    var finalGoodFrames: u16
    var finalShowFrames: u16
    var finalTotalFrames: u16
    var milliampsSum: u64
    var underpowerDesiredMilliampsSum: u64
    var underpowerFramesCount: u64
    var framesCount: u64

    /** The value of the object's integer fields. */
    function Model(): Stats
      reads this
    {
      Stats(startTime, goodFrames, showFrames, totalFrames,
            finalGoodFrames, finalShowFrames, finalTotalFrames,
            milliampsSum, underpowerDesiredMilliampsSum, underpowerFramesCount, framesCount)
    }

    /** The object's invariants, on its fields. */
    ghost predicate Valid()
      reads this
    {
      Inv(Model())
    }

    /** Every field starts at zero. */
    constructor ()
      ensures Model() == Initial && Valid()
    {
      startTime := 0;
      goodFrames, showFrames, totalFrames := 0, 0, 0;
      finalGoodFrames, finalShowFrames, finalTotalFrames := 0, 0, 0;
      milliampsSum, underpowerDesiredMilliampsSum := 0, 0;
      underpowerFramesCount, framesCount := 0, 0;
    }

    /** The start time of the current period. */
    method GetStartTime() returns (t: u32)
      ensures t == Model().startTime
    {
      t := startTime;
    }

    /** The number of frames received correctly in the current period. */
    method GetGoodFrames() returns (n: u16)
      ensures n == Model().goodFrames
    {
      n := goodFrames;
    }

    method IncreaseTotal()
      modifies this
      ensures Model() == StatsModel.IncreaseTotal(old(Model()))
      ensures old(Valid()) ==> Valid()
    {
      totalFrames := Inc16(totalFrames);
    }

    method IncreaseShow()
      modifies this
      ensures Model() == StatsModel.IncreaseShow(old(Model()))
      ensures old(Valid()) ==> Valid()
    {
      showFrames := Inc16(showFrames);
    }

    method IncreaseGood()
      modifies this
      ensures Model() == StatsModel.IncreaseGood(old(Model()))
      ensures old(Valid()) ==> Valid()
    {
      goodFrames := Inc16(goodFrames);
    }

    /** `limited` is the outcome of the limiter's "limited by 100%" test. */
    method UpdatePowerStats(limited: bool, milliamps: u32, underpowerDesiredMilliamps: u32)
      modifies this
      ensures Model() == StatsModel.UpdatePowerStats(old(Model()), limited, milliamps, underpowerDesiredMilliamps)
      ensures old(Valid()) && old(framesCount) as int < TWO_64 - 1 ==> Valid()
    {
      framesCount := Inc64(framesCount);
      if limited {
        underpowerFramesCount := Inc64(underpowerFramesCount);
        underpowerDesiredMilliampsSum := Add64(underpowerDesiredMilliampsSum, underpowerDesiredMilliamps);
      }
      milliampsSum := Add64(milliampsSum, milliamps);
      underpowerDesiredMilliampsSum := Add64(underpowerDesiredMilliampsSum, underpowerDesiredMilliamps);
    }

    method Update(currentTime: u32)
      modifies this
      ensures Model() == StatsModel.Update(old(Model()), currentTime)
      ensures old(Valid()) ==> Valid()
    {
      if totalFrames > 0 {
        finalShowFrames := showFrames;
        finalGoodFrames := Min16(goodFrames, totalFrames);
        finalTotalFrames := totalFrames;
      }
      startTime := currentTime;
      goodFrames := 0;
      totalFrames := 0;
      showFrames := 0;
    }

    /** The state change of printing the report; the report text itself is
        not modelled. */
    method Print(curTime: u32)
      modifies this
      ensures Model() == PrintEffect(old(Model()), curTime)
      ensures old(Valid()) ==> Valid()
    {
      startTime := curTime;
      goodFrames := 0;
      totalFrames := 0;
      showFrames := 0;
    }

    method Reset(currentTime: u32)
      modifies this
      ensures Model() == StatsModel.Reset(currentTime)
      ensures Valid()
    {
      startTime := currentTime;
      finalShowFrames := 0;
      finalGoodFrames := 0;
      finalTotalFrames := 0;
      goodFrames := 0;
      totalFrames := 0;
      showFrames := 0;
      milliampsSum := 0;
      underpowerDesiredMilliampsSum := 0;
      underpowerFramesCount := 0;
      framesCount := 0;
    }

    method LightReset(curTime: u32, hasData: bool)
      modifies this
      ensures Model() == StatsModel.LightReset(old(Model()), curTime, hasData)
      ensures old(Valid()) ==> Valid()
    {
      if hasData {
        startTime := curTime;
      }
      goodFrames := 0;
      totalFrames := 0;
      showFrames := 0;
    }
  }
}
