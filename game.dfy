/** The round state machine of the reaction game: `start_game`,
    `gpio_callback`, the result branch of the main loop and one iteration of
    that loop. Hardware calls are inputs (pin levels, clock readings, the
    value of `rand()`) or outputs (LEDs, buzzer, display lines). */
module Game {
  import opened Common
  import opened Timing
  import opened Buzzer
  import Display

  const ButtonStart: nat := 5
  const ButtonStop: nat := 6

  const MinDelayMs: nat := 1000
  const DelaySpanMs: nat := 4000
  /** The arming wait sleeps in ticks of this many ms and samples the stop pin after each. */
  const TickMs: nat := 10

  const BeepHz: U32 := 3000
  const BeepMs: U32 := 300

  const IdlePrompt: string := "PRESSIONE A    PARA COMECAR!"
  const ReadyText: string := "PREPARAR...!"
  const TooEarlyText: string := "MUITO CEDO!"
  const PressStopText: string := "PRESSIONE B    PARA MARCAR!"

  /** The game's global flags and timestamps. */
  datatype Round = Round(
    gameRunning: bool,
    reactionPhase: bool,
    falseStartDetected: bool,
    buttonBPressed: bool,
    startTime: U64,
    reactionTime: U64)

  /** The state at boot: zero-initialised globals. */
  const Boot: Round := Round(false, false, false, false, 0, 0)

  /** The flags never contradict one another: a reaction phase belongs to a
      running round, a stop press to a reaction phase, and a running round
      has not been a false start. */
  predicate Consistent(s: Round)
  {
    && (s.reactionPhase ==> s.gameRunning)
    && (s.buttonBPressed ==> s.reactionPhase)
    && (s.gameRunning ==> !s.falseStartDetected)
  }

  predicate IsIdle(s: Round)
  {
    !s.gameRunning && !s.reactionPhase && !s.buttonBPressed
  }

  /** The guard of the result branch of the main loop. */
  predicate ResultReady(s: Round)
  {
    s.gameRunning && s.reactionPhase && s.buttonBPressed
  }

  /** Under the flag invariant the three-flag guard of the result branch
      comes down to `button_b_pressed`: a recorded stop edge always belongs
      to a running reaction phase. */
  lemma ResultGuard(s: Round)
    requires Consistent(s)
    ensures ResultReady(s) <==> s.buttonBPressed
  {
  }

  /** `1000 + (rand() % 4000)` for a non-negative `rand()` value. */
  function ArmingDelay(randValue: nat): (delayMs: nat)
    ensures MinDelayMs <= delayMs < MinDelayMs + DelaySpanMs
  {
    MinDelayMs + randValue % DelaySpanMs
  }

  /** Ticks the arming wait polls: `delay_ms / 10`; the last partial tick is not polled. */
  function Ticks(delayMs: nat): (n: nat)
    ensures TickMs * n <= delayMs < TickMs * n + TickMs
  {
    delayMs / TickMs
  }

  /** Some of the first n stop-pin samples reads low (pressed). */
  predicate FalseStartIn(stopLevels: seq<bool>, n: nat)
    requires n <= |stopLevels|
  {
    exists j :: 0 <= j < n && !stopLevels[j]
  }

  /** Index of the first low sample among the first n, or n when there is none. */
  function FirstLow(stopLevels: seq<bool>, n: nat): (k: nat)
    requires n <= |stopLevels|
    ensures k <= n
    ensures forall j :: 0 <= j < k ==> stopLevels[j]
    ensures k < n ==> !stopLevels[k]
  {
    if n == 0 then 0
    else
      var k := FirstLow(stopLevels, n - 1);
      if k < n - 1 then k else if stopLevels[n - 1] then n else n - 1
  }

  /** Ticks slept before the wait ends: up to and including the first low sample. */
  function TicksWaited(stopLevels: seq<bool>, n: nat): (w: nat)
    requires n <= |stopLevels|
    ensures w <= n
  {
    var k := FirstLow(stopLevels, n);
    if k < n then k + 1 else n
  }

  /** The arming wait of `start_game`: sleep a tick, sample the stop pin,
      leave at the first low sample. */
  method PollForFalseStart(ticks: nat, stopLevels: seq<bool>) returns (falseStart: bool, waited: nat)
    requires ticks <= |stopLevels|
    ensures falseStart <==> FalseStartIn(stopLevels, ticks)
    ensures waited == TicksWaited(stopLevels, ticks)
    ensures falseStart ==> 1 <= waited && !stopLevels[waited - 1]
  {
    falseStart := false;
    var i := 0;
    while i < ticks
      invariant 0 <= i <= ticks
      invariant forall j :: 0 <= j < i ==> stopLevels[j]
    {
      // sleep_ms(TickMs)
      if !stopLevels[i] {
        falseStart := true;
        break;
      }
      i := i + 1;
    }
    waited := if falseStart then i + 1 else i;
  }

  /** `start_game` on the flags and timestamps: with `startUs` the clock
      read by `start_timer`. */
  function Start(s: Round, delayMs: nat, stopLevels: seq<bool>, startUs: U64): (r: Round)
    requires Ticks(delayMs) <= |stopLevels|
    ensures s.gameRunning ==> r == s
    ensures !s.gameRunning ==>
              && !r.buttonBPressed
              && r.reactionTime == s.reactionTime
              && r.gameRunning == r.reactionPhase
              && (r.falseStartDetected <==> FalseStartIn(stopLevels, Ticks(delayMs)))
              && (r.reactionPhase <==> !FalseStartIn(stopLevels, Ticks(delayMs)))
              && r.startTime == (if r.reactionPhase then startUs else s.startTime)
    ensures Consistent(s) || !s.gameRunning ==> Consistent(r)
  {
    if s.gameRunning then s
    else if FirstLow(stopLevels, Ticks(delayMs)) < Ticks(delayMs) then
      s.(gameRunning := false, reactionPhase := false, falseStartDetected := true, buttonBPressed := false)
    else
      s.(gameRunning := true, reactionPhase := true, falseStartDetected := false, buttonBPressed := false,
         startTime := startUs)
  }

  /** `gpio_callback(gpio, events)` run at clock reading `now`. */
  function Callback(s: Round, gpio: nat, now: U64): (r: Round)
    ensures r.gameRunning == s.gameRunning && r.reactionPhase == s.reactionPhase
    ensures r.falseStartDetected == s.falseStartDetected && r.startTime == s.startTime
    ensures gpio == ButtonStop && s.gameRunning && s.reactionPhase ==>
              r.buttonBPressed && r.reactionTime == now
    ensures !(gpio == ButtonStop && s.gameRunning && s.reactionPhase) ==> r == s
    ensures Consistent(s) ==> Consistent(r)
  {
    if gpio == ButtonStop && s.gameRunning && s.reactionPhase then
      s.(reactionTime := now, buttonBPressed := true)
    else s
  }

  /** The flag reset at the end of the result branch. */
  function Finish(s: Round): (r: Round)
    ensures IsIdle(r) && Consistent(r) && !r.falseStartDetected
    ensures r.startTime == s.startTime && r.reactionTime == s.reactionTime
  {
    s.(gameRunning := false, reactionPhase := false, falseStartDetected := false, buttonBPressed := false)
  }

  /** A low sample at any polled tick, the last one included, makes the round
      a false start: it never reaches the reaction phase. */
  lemma FalseStartPriority(s: Round, delayMs: nat, stopLevels: seq<bool>, startUs: U64, j: nat)
    requires !s.gameRunning
    requires Ticks(delayMs) <= |stopLevels|
    requires j < Ticks(delayMs) && !stopLevels[j]
    ensures var r := Start(s, delayMs, stopLevels, startUs);
            r.falseStartDetected && !r.gameRunning && !r.reactionPhase
  {
  }

  /** A round that has just started never satisfies the result guard: the
      result needs a stop edge after the reaction phase begins. */
  lemma StartIsNotReady(s: Round, delayMs: nat, stopLevels: seq<bool>, startUs: U64)
    requires !s.gameRunning
    requires Ticks(delayMs) <= |stopLevels|
    ensures !ResultReady(Start(s, delayMs, stopLevels, startUs))
  {
  }

  /** Every qualifying edge overwrites the reaction time: with two edges the
      later one is measured. */
  lemma LastEdgeWins(s: Round, t1: U64, t2: U64)
    requires s.gameRunning && s.reactionPhase
    ensures Callback(Callback(s, ButtonStop, t1), ButtonStop, t2).reactionTime == t2
    ensures ResultReady(Callback(Callback(s, ButtonStop, t1), ButtonStop, t2))
  {
  }

  /** A whole round: from any idle state, a wait without a low sample, then a
      stop edge at `stopUs`: the result guard holds, the elapsed time is the
      truncated number of ms between `start_timer` and the edge, and the
      result branch returns to idle. */
  lemma ReactionRound(s: Round, randValue: nat, stopLevels: seq<bool>, startUs: U64, stopUs: U64)
    requires Consistent(s) && !s.gameRunning
    requires Ticks(ArmingDelay(randValue)) <= |stopLevels|
    requires !FalseStartIn(stopLevels, Ticks(ArmingDelay(randValue)))
    requires startUs <= stopUs && stopUs - startUs < 1000 * U32Limit
    ensures var armed := Start(s, ArmingDelay(randValue), stopLevels, startUs);
            var stopped := Callback(armed, ButtonStop, stopUs);
            && ResultReady(stopped)
            && ElapsedMs(stopped.startTime, stopped.reactionTime) == (stopUs - startUs) / 1000
            && IsIdle(Finish(stopped)) && Consistent(Finish(stopped))
  {
  }

  /** The idle prompt takes two lines: the four spaces pad "PRESSIONE A" to
      exactly one 15-character line. */
  lemma IdlePromptLines(height: int)
    requires height > Display.RowStep
    ensures Display.DisplayLines(IdlePrompt, height)
            == [(0, "PRESSIONE A    "), (Display.RowStep, "PARA COMECAR!")]
  {
    var lines := Display.DisplayLines(IdlePrompt, height);
    assert |IdlePrompt| == 28;
    assert |lines| == 2;
    assert lines[0] == (0, IdlePrompt[0..15]);
    assert lines[1] == (Display.RowStep, IdlePrompt[15..28]);
    assert IdlePrompt[0..15] == "PRESSIONE A    ";
    assert IdlePrompt[15..28] == "PARA COMECAR!";
  }

  /** The firmware's globals, the `static last_time` of `debounce_button`,
      and the outputs it drives. */
  class Ligeirinho {
    var gameRunning: bool
    var reactionPhase: bool
    var falseStartDetected: bool
    var buttonBPressed: bool
    var startTime: U64
    var reactionTime: U64
    var buzzerActive: bool
    /** Outputs: PWM level and wrap of the buzzer, alarms not yet fired. */
    var buzzerLevel: nat
    var buzzerWrap: U32
    var pendingStops: nat
    /** `debounce_button`'s `static uint32_t last_time`. */
    var lastTime: U32
    /** Outputs: the two LEDs and the lines of the last `display_text`. */
    var greenLed: bool
    var redLed: bool
    var screen: seq<(nat, string)>
    /** `clock_get_hz(clk_sys)` and `ssd1306_height`. */
    const sysClockHz: U32
    const displayHeight: int

    function State(): Round
      reads this
    {
      Round(gameRunning, reactionPhase, falseStartDetected, buttonBPressed, startTime, reactionTime)
    }

    function ToneState(): Tone
      reads this
    {
      Tone(buzzerActive, buzzerLevel, buzzerWrap, pendingStops)
    }

    ghost predicate Valid()
      reads this
    {
      Consistent(State()) && ToneOk(ToneState())
    }

    /** Boot: globals at their initial values, LEDs off, buzzer level 0
        (`pwm_init_buzzer`), the idle prompt on the display. */
    constructor (sysClockHz: U32, displayHeight: int)
      ensures Valid()
      ensures this.sysClockHz == sysClockHz && this.displayHeight == displayHeight
      ensures State() == Boot && ToneState() == Tone(false, 0, 0, 0) && lastTime == 0
      ensures !greenLed && !redLed && screen == Display.DisplayLines(IdlePrompt, displayHeight)
    {
      var lines := Display.DisplayText(IdlePrompt, displayHeight);
      this.sysClockHz, this.displayHeight := sysClockHz, displayHeight;
      gameRunning, reactionPhase, falseStartDetected, buttonBPressed := false, false, false, false;
      startTime, reactionTime := 0, 0;
      buzzerActive, buzzerLevel, buzzerWrap, pendingStops := false, 0, 0, 0;
      lastTime := 0;
      greenLed, redLed := false, false;
      screen := lines;
    }

    /** `display_text(text)`. */
    method Show(text: string)
      modifies this`screen
      ensures screen == Display.DisplayLines(text, displayHeight)
    {
      screen := Display.DisplayText(text, displayHeight);
    }

    /** `stop_buzzer`, called directly from the main loop. */
    method StopBuzzer()
      modifies this`buzzerActive, this`buzzerLevel
      ensures ToneState() == Stop(old(ToneState()))
    {
      buzzerLevel := 0;
      buzzerActive := false;
    }

    /** The alarm scheduled by `buzzer_beep` fires and calls `stop_buzzer`. */
    method AlarmCallback()
      requires pendingStops > 0
      modifies this`buzzerActive, this`buzzerLevel, this`pendingStops
      ensures ToneState() == AlarmFires(old(ToneState()))
    {
      pendingStops := pendingStops - 1;
      StopBuzzer();
    }

    /** `buzzer_beep(frequency, duration_ms)`. */
    method BuzzerBeep(frequency: U32, durationMs: U32)
      requires frequency > 0
      modifies this`buzzerActive, this`buzzerLevel, this`buzzerWrap, this`pendingStops
      ensures ToneState() == Beep(old(ToneState()), sysClockHz, frequency)
    {
      if buzzerActive {
        return;
      }
      var top := SubU32(sysClockHz / frequency, 1);
      buzzerWrap := top;
      buzzerLevel := top / 2;
      buzzerActive := true;
      // add_alarm_in_ms(durationMs, stop_buzzer, NULL, false)
      pendingStops := pendingStops + 1;
    }

    /** `debounce_button(gpio)` at clock reading `nowUs`, the pin reading
        `pinHigh`. The result does not depend on `gpio`: one window serves
        every button. */
    method DebounceButton(gpio: nat, nowUs: U64, pinHigh: bool) returns (pressed: bool)
      modifies this`lastTime
      ensures DebounceOutcome(pressed, lastTime) == Debounce(old(lastTime), MsSinceBoot(nowUs), pinHigh)
    {
      var current := MsSinceBoot(nowUs);
      if SubU32(current, lastTime) < DebounceMs {
        return false;
      }
      lastTime := current;
      pressed := !pinHigh;
    }

    /** `start_game`, with `rand()` returning `randValue`, `stopLevels[i]`
        the stop pin read after tick i of the wait, and `startUs` the clock
        read by `start_timer`. Returns the ticks slept. */
    method StartGame(randValue: nat, stopLevels: seq<bool>, startUs: U64) returns (waited: nat)
      requires Valid()
      requires Ticks(ArmingDelay(randValue)) <= |stopLevels|
      modifies this
      ensures Valid()
      ensures State() == Start(old(State()), ArmingDelay(randValue), stopLevels, startUs)
      ensures old(gameRunning) ==> waited == 0 && unchanged(this)
      ensures !old(gameRunning) ==> waited == TicksWaited(stopLevels, Ticks(ArmingDelay(randValue)))
      ensures !old(gameRunning) && reactionPhase ==>
                && !greenLed && redLed
                && ToneState() == Beep(old(ToneState()), sysClockHz, BeepHz)
                && screen == Display.DisplayLines(PressStopText, displayHeight)
      ensures !old(gameRunning) && !reactionPhase ==>
                && !greenLed && !redLed
                && ToneState() == old(ToneState())
                && screen == Display.DisplayLines(IdlePrompt, displayHeight)
      ensures lastTime == old(lastTime)
    {
      waited := 0;
      if !gameRunning {
        waited := RunRound(randValue, stopLevels, startUs);
      }
    }

    /** The body of `start_game` once the `!game_running` test has passed:
        arm, wait, then take the false-start or the reaction exit. */
    method RunRound(randValue: nat, stopLevels: seq<bool>, startUs: U64) returns (waited: nat)
      requires Valid() && !gameRunning
      requires Ticks(ArmingDelay(randValue)) <= |stopLevels|
      modifies this`gameRunning, this`reactionPhase, this`falseStartDetected, this`buttonBPressed,
               this`greenLed, this`redLed, this`screen, this`startTime,
               this`buzzerActive, this`buzzerLevel, this`buzzerWrap, this`pendingStops
      ensures Valid()
      ensures State() == Start(old(State()), ArmingDelay(randValue), stopLevels, startUs)
      ensures waited == TicksWaited(stopLevels, Ticks(ArmingDelay(randValue)))
      ensures reactionPhase ==>
                && !greenLed && redLed
                && ToneState() == Beep(old(ToneState()), sysClockHz, BeepHz)
                && screen == Display.DisplayLines(PressStopText, displayHeight)
      ensures !reactionPhase ==>
                && !greenLed && !redLed
                && ToneState() == old(ToneState())
                && screen == Display.DisplayLines(IdlePrompt, displayHeight)
    {
      gameRunning := true;
      reactionPhase := false;
      falseStartDetected := false;
      buttonBPressed := false;
      Show(ReadyText);
      greenLed := true;

      var delayMs := ArmingDelay(randValue);
      var found;
      found, waited := PollForFalseStart(Ticks(delayMs), stopLevels);
      if found {
        falseStartDetected := true;
      }

      if falseStartDetected {
        EndFalseStart();
        return;
      }
      BeginReaction(startUs);
    }

    /** The false-start exit of `start_game`. */
    method EndFalseStart()
      modifies this`gameRunning, this`reactionPhase, this`greenLed, this`redLed, this`screen
      ensures !gameRunning && !reactionPhase && !greenLed && !redLed
      ensures screen == Display.DisplayLines(IdlePrompt, displayHeight)
    {
      Show(TooEarlyText);
      greenLed := false;
      // three 200 ms / 200 ms flashes of the red LED, which ends off
      redLed := false;
      gameRunning := false;
      reactionPhase := false;
      // 2000 ms pass
      Show(IdlePrompt);
    }

    /** The normal exit of `start_game`: the stimulus and the start of the clock. */
    method BeginReaction(startUs: U64)
      modifies this`greenLed, this`redLed, this`buzzerActive, this`buzzerLevel, this`buzzerWrap,
               this`pendingStops, this`startTime, this`reactionPhase, this`screen
      ensures !greenLed && redLed && reactionPhase && startTime == startUs
      ensures ToneState() == Beep(old(ToneState()), sysClockHz, BeepHz)
      ensures screen == Display.DisplayLines(PressStopText, displayHeight)
    {
      greenLed := false;
      redLed := true;
      BuzzerBeep(BeepHz, BeepMs);
      startTime := startUs;
      reactionPhase := true;
      Show(PressStopText);
    }

    /** `gpio_callback(gpio, events)` delivered at clock reading `now`; the
        event mask is not read. */
    method GpioCallback(gpio: nat, now: U64)
      requires Valid()
      modifies this`reactionTime, this`buttonBPressed
      ensures Valid()
      ensures State() == Callback(old(State()), gpio, now)
    {
      if gpio == ButtonStop && gameRunning && reactionPhase {
        reactionTime := now;
        buttonBPressed := true;
      }
    }

    /** The result branch of the main loop: when a stop edge has been
        recorded, compute the elapsed ms, turn the red LED and the buzzer
        off and return to idle, showing the idle prompt. */
    method ResultStep() returns (elapsed: Option<U32>)
      requires Valid()
      modifies this
      ensures Valid()
      ensures !old(ResultReady(State())) ==> elapsed == None && unchanged(this)
      ensures old(ResultReady(State())) ==>
                && elapsed == Some(ElapsedMs(old(startTime), old(reactionTime)))
                && State() == Finish(old(State()))
                && ToneState() == Stop(old(ToneState()))
                && !redLed && greenLed == old(greenLed) && lastTime == old(lastTime)
                && screen == Display.DisplayLines(IdlePrompt, displayHeight)
    {
      elapsed := None;
      if gameRunning && reactionPhase && buttonBPressed {
        var ms := ElapsedMs(startTime, reactionTime);
        elapsed := Some(ms);
        redLed := false;
        StopBuzzer();
        // the "Tempo: %.1f ms" text is shown here, then 5000 ms pass
        gameRunning := false;
        reactionPhase := false;
        falseStartDetected := false;
        buttonBPressed := false;
        Show(IdlePrompt);
      }
    }

    /** One pass of the main loop's body at clock reading `nowUs`, the start
        pin reading `startPinHigh`; `randValue`, `stopLevels` and `startUs`
        feed `start_game` when it runs. `edgeUs` is a falling edge of the
        stop button delivered after the start branch and before the result
        guard (during the 300 ms sleep or the last `display_text` of
        `start_game`), if one arrives then; edges at other times are
        separate `GpioCallback` calls. A result comes out exactly when the
        guard holds after that edge. */
    method LoopIteration(nowUs: U64, startPinHigh: bool, randValue: nat, stopLevels: seq<bool>,
                         startUs: U64, edgeUs: Option<U64>)
      returns (elapsed: Option<U32>)
      requires Valid()
      requires Ticks(ArmingDelay(randValue)) <= |stopLevels|
      modifies this
      ensures Valid()
      ensures var press := Debounce(old(lastTime), MsSinceBoot(nowUs), startPinHigh);
              var armed := if press.pressed then Start(old(State()), ArmingDelay(randValue), stopLevels, startUs)
                           else old(State());
              var edged := if edgeUs.Some? then Callback(armed, ButtonStop, edgeUs.value) else armed;
              && lastTime == press.lastTime
              && State() == (if ResultReady(edged) then Finish(edged) else edged)
              && (elapsed.Some? <==> ResultReady(edged))
              && (elapsed.Some? ==> elapsed.value == ElapsedMs(edged.startTime, edged.reactionTime))
              && ((!press.pressed || old(gameRunning)) && !ResultReady(edged) ==>
                    && ToneState() == old(ToneState())
                    && greenLed == old(greenLed) && redLed == old(redLed)
                    && screen == old(screen))
      ensures edgeUs.None? ==> (elapsed.Some? <==> old(ResultReady(State())))
      ensures var press := Debounce(old(lastTime), MsSinceBoot(nowUs), startPinHigh);
              press.pressed && !old(gameRunning) && elapsed.None? ==>
                && !greenLed && (redLed <==> reactionPhase)
                && screen == Display.DisplayLines(if reactionPhase then PressStopText else IdlePrompt, displayHeight)
                && ToneState() == (if reactionPhase then Beep(old(ToneState()), sysClockHz, BeepHz) else old(ToneState()))
      ensures elapsed.Some? ==>
                && !buzzerActive && buzzerLevel == 0 && !redLed
                && screen == Display.DisplayLines(IdlePrompt, displayHeight)
    {
      var pressed := DebounceButton(ButtonStart, nowUs, startPinHigh);
      if pressed {
        if !gameRunning {
          var _ := StartGame(randValue, stopLevels, startUs);
        }
        // sleep_ms(300)
      }
      if edgeUs.Some? {
        GpioCallback(ButtonStop, edgeUs.value);
      }
      elapsed := ResultStep();
    }
  }
}
