/** The buzzer: `buzzer_beep`, `stop_buzzer` and the one-shot alarm that
    `add_alarm_in_ms` schedules to call `stop_buzzer`. The PWM registers are
    outputs: the wrap value and the level last written. */
module Buzzer {
  import opened Common

  /** `active` is the `volatile bool buzzer_active`; `pendingStops` counts
      alarms scheduled by `buzzer_beep` that have not fired yet. */
  datatype Tone = Tone(active: bool, level: nat, wrap: U32, pendingStops: nat)

  /** A silent buzzer has level 0, and a sounding one has a stop alarm on the way. */
  predicate ToneOk(t: Tone)
  {
    (!t.active ==> t.level == 0) && (t.active ==> t.pendingStops > 0)
  }

  /** PWM period for a frequency: `clock_freq / frequency - 1` on `uint32_t`. */
  function Top(clockHz: U32, frequency: U32): (top: U32)
    requires frequency > 0
    ensures clockHz >= frequency ==> (top + 1) * frequency <= clockHz < (top + 2) * frequency
  {
    SubU32(clockHz / frequency, 1)
  }

  /** `buzzer_beep(frequency, duration_ms)`; the duration only decides when
      the scheduled stop fires. */
  function Beep(t: Tone, clockHz: U32, frequency: U32): (r: Tone)
    requires frequency > 0
    ensures t.active ==> r == t
    ensures !t.active ==> r.active && r.wrap == Top(clockHz, frequency)
                          && r.level == r.wrap / 2 && r.pendingStops == t.pendingStops + 1
    ensures ToneOk(t) ==> ToneOk(r)
  {
    if t.active then t
    else
      var top := Top(clockHz, frequency);
      Tone(true, top / 2, top, t.pendingStops + 1)
  }

  /** `stop_buzzer`: level 0 and `buzzer_active` cleared; pending alarms stay. */
  function Stop(t: Tone): (r: Tone)
    ensures !r.active && ToneOk(r)
    ensures r.wrap == t.wrap && r.pendingStops == t.pendingStops
  {
    t.(active := false, level := 0)
  }

  /** A scheduled alarm fires and runs `stop_buzzer`. */
  function AlarmFires(t: Tone): (r: Tone)
    requires t.pendingStops > 0
    ensures !r.active && ToneOk(r)
    ensures r.pendingStops == t.pendingStops - 1
  {
    Stop(t).(pendingStops := t.pendingStops - 1)
  }

  /** A beep requested while one sounds changes nothing. */
  lemma BeepWhileSounding(t: Tone, clockHz: U32, frequency: U32)
    requires frequency > 0
    ensures Beep(Beep(t, clockHz, frequency), clockHz, frequency) == Beep(t, clockHz, frequency)
  {
  }

  /** Stopping twice is stopping once. */
  lemma StopIdempotent(t: Tone)
    ensures Stop(Stop(t)) == Stop(t)
  {
  }

  /** The explicit stop and the alarm's stop may come in either order: the
      buzzer ends silent in the same state. */
  lemma StopAndAlarmCommute(t: Tone)
    requires t.pendingStops > 0
    ensures AlarmFires(Stop(t)) == Stop(AlarmFires(t))
    ensures !AlarmFires(Stop(t)).active && AlarmFires(Stop(t)).level == 0
  {
  }
}
