/** Time arithmetic of the game: the millisecond reaction time and the
    start-button debounce window. */
module Timing {
  import opened Common

  /** `absolute_time_diff_us(from, to)`: `to - from` on `uint64_t`, read as `int64_t`. */
  function AbsoluteTimeDiffUs(from: U64, to: U64): (d: int)
    ensures -I64Limit <= d < I64Limit
    ensures from <= to < from + I64Limit ==> d == to - from
    ensures to < from && from - to <= I64Limit ==> d == to - from
  {
    ToI64(if from <= to then to - from else to - from + U64Limit)
  }

  /** C's `int64_t / 1000`: the quotient rounded toward zero. */
  function UsToMs(d: int): (q: int)
    ensures d >= 0 ==> 0 <= q && 1000 * q <= d < 1000 * q + 1000
    ensures d < 0 ==> q <= 0 && 1000 * q - 1000 < d <= 1000 * q
  {
    if d >= 0 then d / 1000 else -((-d) / 1000)
  }

  /** `get_elapsed_time`: the microsecond difference divided by 1000 and
      returned as `uint32_t`. */
  function ElapsedMs(startTime: U64, reactionTime: U64): (ms: U32)
    ensures startTime <= reactionTime < startTime + 1000 * U32Limit ==>
              1000 * ms <= reactionTime - startTime < 1000 * ms + 1000
    ensures reactionTime <= startTime < reactionTime + 1000 ==> ms == 0
  {
    ToU32(UsToMs(AbsoluteTimeDiffUs(startTime, reactionTime)))
  }

  /** For a reaction that follows the start by less than 2^32 ms, the result
      is the whole number of milliseconds elapsed, truncated. */
  lemma ElapsedMsForward(startTime: U64, reactionTime: U64)
    requires startTime <= reactionTime
    requires reactionTime - startTime < 1000 * U32Limit
    ensures ElapsedMs(startTime, reactionTime) == (reactionTime - startTime) / 1000
    ensures 1000 * ElapsedMs(startTime, reactionTime) <= reactionTime - startTime
              < 1000 * ElapsedMs(startTime, reactionTime) + 1000
  {
  }

  /** 137500 microseconds are shown as 137 milliseconds. */
  lemma ElapsedMsExample(startTime: U64)
    requires startTime + 137500 < U64Limit
    ensures ElapsedMs(startTime, startTime + 137500) == 137
  {
  }

  /** A difference of less than one millisecond in either direction gives 0:
      the division truncates toward zero, it does not round down. */
  lemma ElapsedMsTruncatesTowardZero(startTime: U64, reactionTime: U64)
    requires startTime - 1000 < reactionTime < startTime + 1000
    ensures ElapsedMs(startTime, reactionTime) == 0
  {
  }

  /** `to_ms_since_boot`: microseconds since boot divided by 1000, kept in `uint32_t`. */
  function MsSinceBoot(us: U64): (ms: U32)
    ensures us < 1000 * U32Limit ==> 1000 * ms <= us < 1000 * ms + 1000
  {
    ToU32(us / 1000)
  }

  /** Minimum time between two accepted calls of `debounce_button`, in ms. */
  const DebounceMs: nat := 50

  datatype DebounceOutcome = DebounceOutcome(pressed: bool, lastTime: U32)

  /** `debounce_button` as a function of its `static last_time`, the clock in
      ms and the level the pin reads (`true` = high = released). */
  function Debounce(lastTime: U32, now: U32, pinHigh: bool): (r: DebounceOutcome)
    ensures r.pressed <==> !pinHigh && SubU32(now, lastTime) >= DebounceMs
    ensures r.lastTime == (if SubU32(now, lastTime) < DebounceMs then lastTime else now)
  {
    if SubU32(now, lastTime) < DebounceMs then DebounceOutcome(false, lastTime)
    else DebounceOutcome(!pinHigh, now)
  }

  /** The window is shared: once a call at `t1` has passed the window (for any
      button, pressed or not), every call within 50 ms of `t1` is refused,
      whichever button it samples and whatever that pin reads. */
  lemma DebounceSharedWindow(lastTime: U32, t1: U32, pin1: bool, t2: U32, pin2: bool)
    requires SubU32(t1, lastTime) >= DebounceMs
    requires SubU32(t2, t1) < DebounceMs
    ensures !Debounce(Debounce(lastTime, t1, pin1).lastTime, t2, pin2).pressed
    ensures Debounce(Debounce(lastTime, t1, pin1).lastTime, t2, pin2).lastTime == t1
  {
  }

  /** Two presses accepted one after the other are at least 50 ms apart,
      counted modulo 2^32. */
  lemma DebounceOncePerWindow(lastTime: U32, t1: U32, pin1: bool, t2: U32, pin2: bool)
    requires Debounce(lastTime, t1, pin1).pressed
    requires Debounce(Debounce(lastTime, t1, pin1).lastTime, t2, pin2).pressed
    ensures SubU32(t2, t1) >= DebounceMs
  {
  }

  /** The 32-bit millisecond clock wraps after about 49.7 days; the window is
      measured across the wrap. */
  lemma DebounceAcrossWrap()
    ensures !Debounce(U32Limit - 20, 10, false).pressed
    ensures Debounce(U32Limit - 20, 30, false).pressed
  {
  }
}
