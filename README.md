# Ligeirinho reaction game — a Dafny model

Ligeirinho is a reaction-time game for a Raspberry Pi Pico. Button A starts a round. The green LED lights, and the firmware picks a delay of 1000 to 4999 ms and waits in 10 ms ticks, sampling button B after each. The final partial tick is not waited, so the wait lasts at most 4990 ms. Pressing B during that wait is a false start ("MUITO CEDO!"). When the wait ends cleanly, the red LED lights and the buzzer beeps. The firmware then records `start_time`, and an interrupt on button B records `reaction_time`. The main loop then shows the elapsed milliseconds and goes back to idle.

This project models the game logic of `Ligeirinho.c`. The hardware calls become explicit inputs and outputs:

- **Inputs:** the value `rand()` returns, the stop-pin level after each 10 ms tick of the arming wait, clock readings in microseconds, and the level of the start pin.
- **Outputs:** the two LEDs, the buzzer's PWM level and wrap, and the (row, slice) lines that `display_text` hands to the display driver.

The modules are:

- `common.dfy` (`Common`): `uint32_t`/`uint64_t`/`int64_t` as bounded integers with explicit wrap-around.
- `timing.dfy` (`Timing`): `get_elapsed_time`, which computes an `int64_t` microsecond difference, divides it by 1000 with truncation toward zero and returns it as `uint32_t`. It also holds `debounce_button` as a function of its `static last_time`.
- `display.dfy` (`Display`): the line-splitting loop of `display_text`, as a loop method proved equal to a closed-form definition. It is proved to show a prefix of the text, and all of it exactly when the text fits.
- `buzzer.dfy` (`Buzzer`): `buzzer_beep`, `stop_buzzer` and the alarm that calls `stop_buzzer`, as functions on a `Tone` value.
- `game.dfy` (`Game`): the round flags as a `Round` value with pure transitions (`Start`, `Callback`, `Finish`), the arming wait loop, and the class `Ligeirinho`. Its fields are the firmware's globals, and its methods are proved against those transitions. The interrupt and the buzzer alarm are single atomic method calls made between loop steps.

Three behaviours a reader might not expect, which the model follows as the code has them:

- Every qualifying stop edge overwrites `reaction_time`, so the last edge before the result step is the one measured (`LastEdgeWins`).
- One debounce timestamp serves every button (`DebounceSharedWindow`).
- `display_text` draws its first line even when the display is 8 pixels high or less. The height check comes after each line is drawn (`RowCapacity`).

## Model

| member | source | states |
|---|---|---|
| `Common.ToU32` | Ligeirinho.c:121 | The `uint32_t` return of `get_elapsed_time`: the value modulo 2^32, unchanged when it already fits. |
| `Common.ToI64` | Ligeirinho.c:122 | The `int64_t` reading of the 64-bit difference: in range, equal to the value or the value minus 2^64, and unchanged below 2^63. |
| `Common.SubU32` | Ligeirinho.c:135 | `current_time - last_time` wraps modulo 2^32: adding `last_time` back gives `current_time`. |
| `Timing.AbsoluteTimeDiffUs` | Ligeirinho.c:122 | The difference fits `int64_t`, and it is the true difference whenever that fits. |
| `Timing.UsToMs` | Ligeirinho.c:122 | Division by 1000 rounds toward zero for positive and negative differences alike. |
| `Timing.ElapsedMs` | Ligeirinho.c:121-123 | `get_elapsed_time`: for a reaction less than 2^32 ms after the start, the whole milliseconds elapsed, truncated. A reaction up to 1 ms before the start gives 0. |
| `Timing.ElapsedMsForward` | Ligeirinho.c:121-123 | For a reaction less than 2^32 ms after the start, `get_elapsed_time` is the elapsed microseconds divided by 1000, truncated. |
| `Timing.ElapsedMsExample` | Ligeirinho.c:121-123 | 137500 µs are reported as 137 ms. |
| `Timing.ElapsedMsTruncatesTowardZero` | Ligeirinho.c:122 | A difference under 1 ms in either direction gives 0, not 2^32 - 1. |
| `Timing.MsSinceBoot` | Ligeirinho.c:133 | The millisecond clock is the microsecond clock divided by 1000, truncated. |
| `Timing.Debounce` | Ligeirinho.c:131-141 | A press is reported exactly when the pin is low and at least 50 ms (mod 2^32) have passed since `last_time`. `last_time` moves to now whenever at least 50 ms have passed, pressed or not. |
| `Timing.DebounceSharedWindow` | Ligeirinho.c:131-141 | After a call that passes the window, any call within 50 ms is refused whatever button or level it samples. The window is not per button. |
| `Timing.DebounceOncePerWindow` | Ligeirinho.c:135-140 | Two presses accepted in a row are at least 50 ms apart. |
| `Timing.DebounceAcrossWrap` | Ligeirinho.c:135 | The window is measured correctly across the 2^32 ms wrap of the clock. |
| `Display.RowCapacity` | Ligeirinho.c:52-57 | The loop can draw the smallest number n ≥ 1 of lines with 8n ≥ height. |
| `Display.LineCount` | Ligeirinho.c:52-57 | Lines drawn = the number of started 15-character slices, capped by the row capacity. |
| `Display.Slice` | Ligeirinho.c:53-54 | Each line holds between 1 and 15 characters. |
| `Display.DisplayLines` | Ligeirinho.c:47-58 | Line k is drawn at row 8k, below the height unless it is line 0, and holds the slice at offset 15k. |
| `Display.ConcatLinesPrefix` | Ligeirinho.c:52-58 | The first k lines together are exactly the first 15k characters of the text. |
| `Display.DisplayedIsPrefix` | Ligeirinho.c:47-58 | The text on screen is a prefix of the text, and all of it iff the text has at most 15 × capacity characters. |
| `Display.DisplayText` | Ligeirinho.c:47-58 | The loop over `i` and `y` with its `break` draws exactly `DisplayLines`. |
| `Buzzer.Top` | Ligeirinho.c:99 | The PWM top is `clock / frequency - 1`: (top + 1) periods of the frequency fit the clock. |
| `Buzzer.Beep` | Ligeirinho.c:94-106 | No-op while `buzzer_active`. Otherwise the buzzer becomes active at half the computed wrap with one more stop alarm scheduled. Consistency of the tone state is kept. |
| `Buzzer.Stop` | Ligeirinho.c:82-86 | Level 0, `buzzer_active` false, the wrap and pending alarms unchanged. |
| `Buzzer.AlarmFires` | Ligeirinho.c:105 | A scheduled alarm silences the buzzer and is used up. |
| `Buzzer.BeepWhileSounding` | Ligeirinho.c:95 | A second beep while one sounds changes nothing. |
| `Buzzer.StopIdempotent` | Ligeirinho.c:82-86 | Stopping twice is the same as stopping once. |
| `Buzzer.StopAndAlarmCommute` | Ligeirinho.c:82-86 | An explicit stop and the alarm's stop give the same silent state in either order. |
| `Game.ArmingDelay` | Ligeirinho.c:156 | `1000 + rand() % 4000` lies in [1000, 5000). |
| `Game.Ticks` | Ligeirinho.c:157 | The wait polls `delay_ms / 10` ticks, covering the delay except a final partial tick under 10 ms. |
| `Game.FirstLow` | Ligeirinho.c:157-163 | The first low sample among the polled ticks, or the tick count when none reads low. |
| `Game.TicksWaited` | Ligeirinho.c:157-163 | The wait never polls more than `delay_ms / 10` ticks. |
| `Game.PollForFalseStart` | Ligeirinho.c:157-163 | A false start is detected iff some polled tick reads low. The wait stops at the first such tick. |
| `Game.Start` | Ligeirinho.c:146-188 | Nothing changes if a round is running. Otherwise it is a false start (`game_running` and `reaction_phase` false) iff some polled tick reads low. With no low tick, both flags are true and `start_time` is recorded. `button_b_pressed` is cleared, and the flags stay consistent. |
| `Game.Callback` | Ligeirinho.c:193-198 | State changes only for an edge on `BUTTON_STOP` during the reaction phase. That edge sets `reaction_time` and `button_b_pressed` and nothing else. |
| `Game.Finish` | Ligeirinho.c:251-254 | The result branch leaves every flag false (idle) and keeps both timestamps. |
| `Game.ResultGuard` | Ligeirinho.c:239 | When the flags are consistent, the result guard `game_running && reaction_phase && button_b_pressed` holds exactly when `button_b_pressed` does. |
| `Game.FalseStartPriority` | Ligeirinho.c:157-179 | A low sample at any polled tick, the last one included, makes the round a false start. |
| `Game.StartIsNotReady` | Ligeirinho.c:151 | A round that has just started cannot satisfy the result guard. |
| `Game.LastEdgeWins` | Ligeirinho.c:193-198 | Of two stop edges in one reaction phase, the later one's time is measured. |
| `Game.ReactionRound` | Ligeirinho.c:181-254 | Start, a stop edge, then the result: the guard holds, the elapsed value is the truncated ms between start and edge, and the machine ends idle. |
| `Game.IdlePromptLines` | Ligeirinho.c:211 | The idle prompt is drawn as "PRESSIONE A    " on row 0 and "PARA COMECAR!" on row 8. |
| `Game.Ligeirinho.constructor` | Ligeirinho.c:22-27 | Boot state: all flags false, timestamps 0, buzzer silent at level 0, `last_time` 0, LEDs off, idle prompt shown. |
| `Game.Ligeirinho.Show` | Ligeirinho.c:35-61 | `display_text` leaves the lines of `DisplayLines` on the screen. |
| `Game.Ligeirinho.StopBuzzer` | Ligeirinho.c:82-86 | The tone state becomes `Stop` of the old one. |
| `Game.Ligeirinho.AlarmCallback` | Ligeirinho.c:105 | The tone state becomes `AlarmFires` of the old one. |
| `Game.Ligeirinho.BuzzerBeep` | Ligeirinho.c:94-106 | The tone state becomes `Beep` of the old one. |
| `Game.Ligeirinho.DebounceButton` | Ligeirinho.c:131-141 | Result and new `last_time` are those of `Debounce`, whatever `gpio` is. |
| `Game.Ligeirinho.StartGame` | Ligeirinho.c:146-188 | The flags follow `Start`, the object is untouched while a round runs, and the ticks slept are `TicksWaited`. On a false start the LEDs end off with the idle prompt shown. Otherwise the red LED is on, the beep starts and "PRESSIONE B    PARA MARCAR!" is shown. Object consistency is kept. |
| `Game.Ligeirinho.RunRound` | Ligeirinho.c:148-186 | From idle, the flags follow `Start` and the ticks slept are `TicksWaited`. Each exit's LEDs, tone and screen are stated, and object consistency is kept. |
| `Game.Ligeirinho.EndFalseStart` | Ligeirinho.c:165-179 | Round over, both LEDs off, idle prompt shown. |
| `Game.Ligeirinho.BeginReaction` | Ligeirinho.c:181-186 | Red LED on, green off, beep started, `start_time` recorded, reaction phase on. |
| `Game.Ligeirinho.GpioCallback` | Ligeirinho.c:193-198 | The flags follow `Callback`, and consistency is kept. |
| `Game.Ligeirinho.ResultStep` | Ligeirinho.c:239-257 | Runs only under the guard. It returns `get_elapsed_time`, silences the buzzer, turns the red LED off, resets to idle and shows the idle prompt; otherwise nothing changes. |
| `Game.Ligeirinho.LoopIteration` | Ligeirinho.c:231-258 | One pass: debounce, start only when idle, an optional stop edge during the 300 ms sleep, then the result step. A result comes out exactly when the guard holds after that edge; without an in-pass edge, exactly when one was already waiting. After a result the buzzer is silent, the red LED off and the idle prompt shown. When nothing starts (no debounced press, or a press while a round runs) and no result comes out, the buzzer, LEDs and screen are unchanged. After a pass that starts a round without a result, the green LED is off. In the reaction phase the red LED is on, the beep has started and "PRESSIONE B    PARA MARCAR!" is shown. After a false start the red LED is off, the buzzer unchanged and the idle prompt shown. |

## Left out

- Hardware and bus setup are not modelled: I2C, GPIO directions and pull-ups, `pwm_init_buzzer`, `ssd1306_init` and the interrupt registration. These are foreign library calls.
- `render_on_display`, `ssd1306_draw_string` and the frame buffer are not modelled. A drawn line is only the (row, slice) pair passed to the driver, and the x position 2 is not recorded.
- The PWM wrap and level are recorded as the values the firmware computes. The 16-bit widths of the PWM library's parameters are not modelled. The wrap before the first beep is a library default; the model starts it at 0.
- `clock_get_hz(clk_sys)` and `ssd1306_height` are constructor parameters.
- The Pico SDK's `absolute_time_diff_us` and `to_ms_since_boot`: their source is not shown. The model takes `absolute_time_diff_us` as the unsigned 64-bit difference read as `int64_t`, and `to_ms_since_boot` as microseconds / 1000 kept in `uint32_t`.
- `sprintf(buffer, "Tempo: %.1f ms", ...)` is left out because it is floating-point formatting. `ResultStep` returns the `uint32_t` value that would be formatted. The screen afterwards holds the idle prompt, which is what the branch shows last.
- The `sleep_ms` calls, the three 200/200 ms flashes of the red LED and the 300, 2000 and 5000 ms dwells are left out because they are timing only. The red LED ends off after the flashes, and the model records only that.
- `duration_ms` of `buzzer_beep` only decides when the alarm fires. The alarm is a pending count, and `AlarmCallback` may be called at any point between steps.
- Real concurrency is left out: the interrupt and the alarm callback each run atomically between method calls. An edge that arrives inside the result branch, after `elapsed` is computed and before the flags are reset, would overwrite `reaction_time` in the firmware. The model cannot show that interleaving, nor the `volatile` memory-visibility questions.
- The `events` argument of `gpio_callback` is never read and is not modelled.
- `rand()` is a parameter, a non-negative value. The stop-pin samples are a parameter and must cover every polled tick.
- The infinite `while (true)` loop is modelled as single iterations (`LoopIteration`).
- `Game.Ligeirinho.StartGame` does not state what the display showed during the round ("PREPARAR...!", "MUITO CEDO!"). It states only the lines left on the screen when it returns.
