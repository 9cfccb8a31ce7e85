# HyperSerialPico statistics aggregator, modelled in Dafny

The firmware keeps one global `statistics` object (`include/statistics.h`). The frame
pipeline counts detected, correctly received and shown frames for the current period.
The current limiter adds per-frame power figures to cumulative sums. A periodic reporter
rolls the period over (`update`), prints a report (`print`) and resets the object
(`reset`, `lightReset`).

The project has four modules:

- `Words` (`words.dfy`): the fixed-width unsigned types of the target and their wrap-around.
  - `u16` is `uint16_t`; `u64` is `uint64_t`.
  - `u32` is `uint32_t`, and also `unsigned long`, which is 32 bits on the RP2040.
  - `Inc16` is `x++` on a `uint16_t`, wrapping at 2^16.
  - `Inc64` and `Add64` are `++` and `+=` on a `uint64_t`, wrapping at 2^64.
  - `Min16` is `std::min`.
- `StatsModel` (`stats_model.dfy`): the value `Stats` of the object's integer fields.
  - One function per operation gives the new value from the old one.
  - Each function's contract states the new value of every field, and which fields stay put.
  - `Inv` holds the two invariants: `finalGoodFrames <= finalTotalFrames` and
    `underpowerFramesCount <= framesCount`.
- `Statistics` (`statistics.dfy`): the class `Statistics`.
  - Its fields are the object's fields, and its methods update them in place, as the C++ does.
  - Each state-changing method ensures `Model() == F(old(Model()), …)`, where `F` is the
    matching `StatsModel` function. It also ensures that the invariant is kept.
- `Traces` (`traces.dfy`): sequences of hook calls (`Event`), possibly mixed with reporter
  calls (`Call`), and what they add up to.
  - The current-period counters equal their number of calls modulo 2^16.
  - The power counts and sums equal their totals modulo 2^64.
  - Reporter calls never touch the power statistics, so across a whole session between two
    full resets they grow by exactly what the current-limiter calls bring.
  - Properties of whole periods (including the 2^16 wrap), and two concrete scenarios.

The floating-point test `std::fabs(1 - underpowerPercentage) < 0.00001` becomes the boolean
parameter `limited` of `UpdatePowerStats`. The wrap-around of every counter is modelled as
written.

A limited frame's desired current is added to `underpowerDesiredMilliampsSum` twice, at
line 95 and at line 100. One limited 1000 mA frame that wanted 2000 mA leaves a desired
sum of 4000 (`Traces.PowerScenario`). The model keeps the double addition.

The current-period counters wrap at 2^16, and `update` tests `totalFrames > 0`
(line 129). So a period of exactly 65536·k detected frames keeps the old snapshot, as an
empty period does. A period of 65536 + n frames takes n (`Traces.WrappedPeriodKeepsSnapshot`,
`Traces.WrappedPeriodTakesRemainder`).

## Model

| member | source | states |
|---|---|---|
| `Words.Inc16` | include/statistics.h:37-42 | incrementing a 16-bit counter gives (x + 1) mod 2^16: one more below 0xFFFF, and 0 after 0xFFFF |
| `Words.Inc64` | include/statistics.h:46-49 | incrementing a 64-bit count gives (x + 1) mod 2^64, and exactly x + 1 below the top |
| `Words.Add64` | include/statistics.h:99-100 | adding a 32-bit value to a 64-bit sum gives the sum mod 2^64; below 2^64 it is exact, and at or above it drops 2^64 once |
| `Words.Min16` | include/statistics.h:132 | `std::min` gives a value no larger than either argument, and equal to one of them |
| `StatsModel.IncreaseTotal` | include/statistics.h:70-73 | `totalFrames` becomes (old + 1) mod 2^16; every other field is unchanged; the invariants are kept |
| `StatsModel.IncreaseShow` | include/statistics.h:79-82 | `showFrames` becomes (old + 1) mod 2^16; every other field is unchanged; the invariants are kept |
| `StatsModel.IncreaseGood` | include/statistics.h:107-110 | `goodFrames` becomes (old + 1) mod 2^16; every other field is unchanged; the invariants are kept |
| `StatsModel.UpdatePowerStats` | include/statistics.h:88-101 | `framesCount` grows by one and `milliampsSum` by `milliamps`, both mod 2^64; `underpowerFramesCount` grows only for a limited frame; the desired sum grows by twice the desired current for a limited frame and once otherwise; the counters, snapshot and start time are unchanged; when `framesCount` does not wrap, the invariants are kept |
| `StatsModel.Update` | include/statistics.h:127-140 | when `totalFrames > 0`, the snapshot takes `totalFrames`, `showFrames` and min(`goodFrames`, `totalFrames`), so final good <= final total; when `totalFrames == 0` (no frames, or a multiple of 65536 of them, since the counter wraps), the snapshot is unchanged; the start time becomes `currentTime` and the counters zero; the power statistics are unchanged; the invariants are kept |
| `StatsModel.PrintEffect` | include/statistics.h:152-155 | printing sets the start time to `curTime` and zeroes the counters; the snapshot and power statistics are kept, and so are the invariants |
| `StatsModel.Reset` | include/statistics.h:194-213 | the start time becomes `currentTime`; every counter, snapshot field, power count and power sum is zero; the invariants hold |
| `StatsModel.LightReset` | include/statistics.h:215-223 | the counters become zero; the start time moves to `curTime` exactly when `hasData` holds; the snapshot and power statistics are kept |
| `StatsModel.PrintIsLightReset` | include/statistics.h:148-155 | printing changes the state exactly as `lightReset(curTime, true)` does |
| `StatsModel.EmptyRolloverIsPrint` | include/statistics.h:127-140 | when `totalFrames == 0`, rolling over changes the state exactly as printing does: period start moved, counters zeroed, snapshot kept |
| `StatsModel.RolloverTwiceKeepsSnapshot` | include/statistics.h:129-134 | a second rollover with no frames in between keeps the first one's snapshot and power statistics, and moves only the start time |
| `Statistics.Statistics.constructor` | include/statistics.h:36-49 | a new object has every field zero and satisfies the invariants |
| `Statistics.Statistics.GetStartTime` | include/statistics.h:61-64 | returns the start of the current period |
| `Statistics.Statistics.GetGoodFrames` | include/statistics.h:117-120 | returns the current period's count of correctly received frames |
| `Statistics.Statistics.IncreaseTotal` | include/statistics.h:70-73 | the fields change as `StatsModel.IncreaseTotal` says, and the invariants are kept |
| `Statistics.Statistics.IncreaseShow` | include/statistics.h:79-82 | the fields change as `StatsModel.IncreaseShow` says, and the invariants are kept |
| `Statistics.Statistics.IncreaseGood` | include/statistics.h:107-110 | the fields change as `StatsModel.IncreaseGood` says, and the invariants are kept |
| `Statistics.Statistics.UpdatePowerStats` | include/statistics.h:88-101 | the fields change as `StatsModel.UpdatePowerStats` says: the conditional addition, then the unconditional one; the invariants are kept while `framesCount` does not wrap |
| `Statistics.Statistics.Update` | include/statistics.h:127-140 | the fields change as `StatsModel.Update` says, and the invariants are kept |
| `Statistics.Statistics.Print` | include/statistics.h:148-155 | the fields change as `StatsModel.PrintEffect` says, and the invariants are kept |
| `Statistics.Statistics.Reset` | include/statistics.h:194-213 | the fields become `StatsModel.Reset(currentTime)`, and the invariants hold |
| `Statistics.Statistics.LightReset` | include/statistics.h:215-223 | the fields change as `StatsModel.LightReset` says, and the invariants are kept |
| `Traces.RunKeepsSnapshot` | include/statistics.h:70-110 | no sequence of hook calls changes the start time or the snapshot |
| `Traces.RunCounters` | include/statistics.h:70-110 | after any sequence of hook calls, each current-period counter is its start value plus its number of calls, mod 2^16 |
| `Traces.RunFramesCount` | include/statistics.h:91 | after any sequence of calls, `framesCount` is its start value plus the number of current-limiter calls, mod 2^64 |
| `Traces.RunUnderpowerFramesCount` | include/statistics.h:92-93 | after any sequence of calls, `underpowerFramesCount` is its start value plus the number of limited frames, mod 2^64 |
| `Traces.RunMilliampsSum` | include/statistics.h:99 | after any sequence of calls, `milliampsSum` is its start value plus the total allowed current, mod 2^64 |
| `Traces.RunDesiredSum` | include/statistics.h:92-100 | after any sequence of calls, the desired sum is its start value plus the total desired current, counting limited frames twice, mod 2^64 |
| `Traces.CumulativeSumsGrow` | include/statistics.h:88-101 | over hook calls alone, when `Inv` holds at the start and no count or sum reaches 2^64, the cumulative counts and sums grow by exactly what the calls bring |
| `Traces.RunKeepsInv` | include/statistics.h:88-110 | while `framesCount` does not wrap, no sequence of hook calls breaks the invariants |
| `Traces.CountsSinceReset` | include/statistics.h:91-93 | after a reset and fewer than 2^64 current-limiter calls, `framesCount` equals the number of those calls and `underpowerFramesCount` the number of limited ones, so it is at most `framesCount` |
| `Traces.PeriodSnapshot` | include/statistics.h:127-140 | a period starting from zero counters, with 1 to 65535 received frames and fewer than 65536 shown and good frames each, rolls over into a snapshot of those call counts, good clamped to received; the power statistics are unchanged |
| `Traces.WrappedPeriodKeepsSnapshot` | include/statistics.h:127-134 | a period of exactly 65536 detected frames wraps `totalFrames` to 0, so its rollover keeps the old snapshot |
| `Traces.WrappedPeriodTakesRemainder` | include/statistics.h:127-134 | a period of 65536 + n detected frames, 0 < n < 65536, rolls over into a snapshot of n received frames |
| `Traces.OverCountedGoodFramesAreClamped` | include/statistics.h:132 | ten received and twelve good frames after a reset roll over into a snapshot of ten good out of ten received |
| `Traces.RunPowerFromPower` | include/statistics.h:88-101 | two states with the same power statistics still have the same ones after the same hook calls |
| `Traces.SessionPower` | include/statistics.h:127-223 | rollovers, reports and light resets never touch the power statistics: after any session without a full reset they equal what the session's hook calls alone give |
| `Traces.SessionSumsGrow` | include/statistics.h:88-223 | between two full resets, across any rollovers, reports and light resets, when `Inv` holds at the start and nothing reaches 2^64, the cumulative counts and sums grow by exactly what the current-limiter calls bring |
| `Traces.PowerScenario` | include/statistics.h:88-101 | one limited frame of 1000 mA wanting 2000 mA after a reset leaves 1 frame, 1 limited frame, 1000 mA allowed and 4000 mA desired |

## Left out

- The two `long double` sums `underpowerPercentSum` and `powerPercentSum` are not modelled. This covers their declarations, their updates at lines 94 and 98, and their zeroing at lines 211-212. They are floating-point values.
- The test `std::fabs(1 - underpowerPercentage) < 0.00001` is not modelled. It is floating-point, so it appears as the boolean input `limited`. The `powerPercentage` and `underpowerPercentage` arguments are not modelled either. Apart from that test, they only feed the floating-point sums.
- `print` is modelled only for its state change.
  - Its averages (lines 158-163) use floating-point casts, and are not modelled.
  - Its `snprintf`/`printf` output is not modelled.
  - The divisions at lines 174 and 178 have no zero guard, and are not modelled.
- `print`'s FreeRTOS queries are not modelled: `uxTaskGetStackHighWaterMark`, `xPortGetFreeHeapSize` and the two `TaskHandle_t` parameters. They are calls into the runtime.
- The `NEOPIXEL_RGBW` calibration report (lines 185-187) is not modelled. It calls a collaborator that is not part of this model.
- Concurrent access from the pipeline, limiter and reporter tasks is not modelled. The source has no locking, and the model is sequential.
- StatsModel.UpdatePowerStats: the invariant `underpowerFramesCount <= framesCount` is promised only while `framesCount` stays below 2^64 - 1. If `framesCount` wraps, the invariant can break.
- Traces.RunKeepsInv: stated only while `framesCount` does not wrap, for the same reason.
