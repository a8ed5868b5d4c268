# Knight-Rider LED scanner, modelled in Dafny

This project models the core of a small firmware that runs six LEDs as a
bouncing "Knight-Rider" scanner. It covers the firmware's two variants.

- **Interrupt variant** (`CODE5.0P.c`, a SAMD21 program). A timer-overflow
  interrupt moves the position by the direction once per tick while the
  `is_running` flag is set. It reverses the direction at either end and
  redraws the LEDs on pins PA16..PA21 with `update_leds`. A falling-edge
  interrupt from the button first passes a software gate: the value read
  from the timer's counter register must differ from the last accepted
  reading by more than 200, modulo 2^32. The source's comment
  (CODE5.0P.c:161) calls this a 200 ms debounce. The counter restarts from 0
  every millisecond, so the gate compares two counter readings rather than
  measuring an elapsed time.
  An accepted edge while stopped starts the scan. An accepted edge while
  running stops it, resets position and direction to (0, +1), and redraws the
  LEDs. The redraw lights LED 0, so the display is not blanked.
- **Polled Arduino variant** (`Task5_KnightRider.cpp`). The button interrupt
  advances a mode counter 0 → 1 → 2 → 3 → 1 behind a debounce with the same
  shape. This gate compares `millis()` values, so only here does it count
  milliseconds: more than 200 ms since the last accepted press, modulo 2^32.
  The main loop's `runKnightRider` reads `millis()`.
  - Mode 1, once 100 ms have passed: it shows a frame with exactly the current
    index lit, then steps and reflects the index.
  - Mode 3: it blanks the LEDs, rewinds the scan to (0, +1) and returns to mode 0.
  - Modes 0 and 2: it does nothing, so the last frame stays lit.

Layout, one module per file:

- `fixed.dfy` (`Fixed`): the C integer types `uint8_t`, `int8_t` and
  `uint32_t`/`unsigned long` as integer ranges. Conversions and 32-bit
  subtraction are written out with explicit wrap-around.
- `leds.dfy` (`Leds`): the six-LED output vector as `seq<bool>`, with
  "exactly LED p lit", "all dark" and the lit count.
- `bounce.dfy` (`Bounce`): the bouncing scan both variants share, as a
  reference definition. It holds the scan invariant, a closed form of the scan
  from (0, +1) (a triangle wave), the period of 10, and the proof that the
  invariant describes exactly the reachable states.
- `irq_scanner.dfy` (`IrqScanner`): the interrupt variant. A class
  `Controller` has the four globals and the PORT A output register (a `bv32`)
  as fields, and the two handlers and `update_leds` as methods. Each method is
  specified by a function on a `State` snapshot, and the lemmas are stated
  about those functions.
- `knight_rider.dfy` (`KnightRider`): the Arduino variant, in the same shape.
  The class `Controller` holds the globals, the static `lastPress`, and the
  pin levels as an `array<bool>` written by `for` loops.

Inputs from outside become parameters. The counter value that `EIC_Handler`
reads (`TCC0->COUNT.reg`) and the results of `millis()` are `uint32`
arguments of the handler methods. The initial port register is an argument of
the interrupt variant's constructor.

The model states three behaviours of the code that a reader might expect
to be otherwise:

- A stop does not blank the display. `EIC_Handler` calls `update_leds` after
  the reset, so LED 0 stays lit (`IrqScanner.Edge`,
  `IrqScanner.StartTicksStop`).
- The first press after start-up can be dropped. Both variants start their
  last-accepted timestamp at 0. In the interrupt variant an edge is therefore
  dropped exactly when its counter reading is at most 200. In the Arduino
  variant a press is dropped exactly when it comes within the first 200 ms
  (`IrqScanner.FirstEdge`, `KnightRider.FirstPress`).
- The frame lit by a step differs between the variants. The interrupt variant
  lights the position after the step. The Arduino variant lights the index
  from before the step (`KnightRider.Update`, `KnightRider.SweepFromStart`).

## Model

| member | source | states |
|---|---|---|
| `Fixed.ToU8` | CODE5.0P.c:144 | storing an `int` into a `uint8_t` gives the unique value in 0..255 congruent modulo 256, and in-range values are kept |
| `Fixed.ToS8` | CODE5.0P.c:148 | storing an `int` into an `int8_t` gives the unique value in -128..127 congruent modulo 256, and in-range values are kept |
| `Fixed.Sub32` | CODE5.0P.c:163 | unsigned 32-bit `t - last` is the plain difference when `last <= t`, and the difference plus 2^32 otherwise |
| `Fixed.ElapsedAfterWrap` | Task5_KnightRider.cpp:17 | a timestamp taken `d` units after `b` measures an elapsed time of exactly `d`, even when the clock has wrapped |
| `Bounce.StepInv` | CODE5.0P.c:144-149 | the contract of the reference step `Bounce.Step`, which is also the update at Task5_KnightRider.cpp:48-51: from an invariant state it keeps the invariant (position in 0..5, unit direction pointing inward at the ends), moves to a neighbouring position, and reverses the direction exactly when it lands on 0 or 5 |
| `Bounce.IterateInv` | CODE5.0P.c:144-149 | any number of steps keeps the scan invariant |
| `Bounce.IterateFromStart` | CODE5.0P.c:144-149 | after k steps from (0, +1) the position is the triangle wave `PosAt(k)` and the direction is `DirAt(k)` |
| `Bounce.Reachable` | CODE5.0P.c:144-149 | a scan state satisfies the invariant if and only if it is one of the first ten states reached from (0, +1) |
| `Bounce.Period` | CODE5.0P.c:144-149 | ten steps bring every invariant state back to itself |
| `Bounce.StartSweep` | CODE5.0P.c:144-149 | from (0, +1) the positions visited are 1,2,3,4,5,4,3,2,1,0; after ten steps the state is (0, +1) again and not sooner |
| `IrqScanner.Initial` | CODE5.0P.c:10-13 | the start state is position 0, direction +1, stopped, last edge at 0, all LEDs dark, the port's other pins kept, and it satisfies the invariant |
| `IrqScanner.Cleared` | CODE5.0P.c:131 | an output register with the LED mask cleared shows no LED lit |
| `IrqScanner.ShowOut` | CODE5.0P.c:129-135 | clearing `LED_MASK` and setting bit 16+p lights exactly LED p and leaves every pin outside the mask unchanged |
| `IrqScanner.Show` | CODE5.0P.c:129-135 | `update_leds` lights exactly the current position, keeps the pins outside the mask, and changes no global |
| `IrqScanner.Advance` | CODE5.0P.c:144-149 | the `uint8_t`/`int8_t` position-and-direction update equals the reference step whenever the scan invariant holds, so no wrap-around occurs |
| `IrqScanner.AdvanceWraps` | CODE5.0P.c:144 | outside the invariant the C types do wrap: stepping down from 0 gives position 255 |
| `IrqScanner.Tick` | CODE5.0P.c:142-153 | a stopped tick changes nothing, port included; a running tick performs the reference step, lights exactly the new position, keeps the other port pins, the run flag and the debounce clock, and keeps the invariant |
| `IrqScanner.Edge` | CODE5.0P.c:162-176 | a rejected edge changes nothing. An accepted edge records t and flips the run flag. Starting sets the flag to 1 and keeps the scan and the port. Stopping resets to (0, +1) and lights exactly LED 0. The invariant is kept |
| `IrqScanner.Run` | CODE5.0P.c:137-178 | every sequence of timer and button events applied to an invariant state yields an invariant state |
| `IrqScanner.AlwaysInRange` | CODE5.0P.c:137-178 | after any events from start-up the position is in 0..5, the scan invariant holds and at most one LED is lit |
| `IrqScanner.RunningTicks` | CODE5.0P.c:142-153 | k running ticks follow k reference steps, keep the run flag and the debounce clock, and (k > 0) leave exactly the current position lit |
| `IrqScanner.StoppedTicks` | CODE5.0P.c:142 | any number of ticks while stopped leaves the whole state, port included, unchanged |
| `IrqScanner.TickPeriod` | CODE5.0P.c:144-152 | ten running ticks bring position and direction back and light the starting position |
| `IrqScanner.StartTicksStop` | CODE5.0P.c:166-174 | start, any number of ticks, then stop ends stopped at (0, +1) with exactly LED 0 lit and the last edge recorded |
| `IrqScanner.DebounceWindow` | CODE5.0P.c:162-164 | after an edge accepted at counter reading t1, an edge whose reading differs from t1 by at most 200 (modulo 2^32) is dropped without effect, and one whose reading differs by more than 200 is accepted and flips the run flag back |
| `IrqScanner.FirstEdge` | CODE5.0P.c:162-163 | from start-up (last edge at 0) an edge is dropped if and only if its counter value is at most 200 |
| `IrqScanner.Controller.constructor` | CODE5.0P.c:10-13 | the globals take their initial values and the LED pins start cleared |
| `IrqScanner.Controller.UpdateLeds` | CODE5.0P.c:129-135 | the two register writes (clear mask, set pin) give the state `Show` describes |
| `IrqScanner.Controller.TimerTick` | CODE5.0P.c:137-155 | the handler's in-place updates give the state `Tick` describes and keep the invariant |
| `IrqScanner.Controller.ButtonEdge` | CODE5.0P.c:156-178 | the handler's in-place updates give the state `Edge` describes and keep the invariant |
| `KnightRider.Initial` | Task5_KnightRider.cpp:7-14 | the start state is mode 0, index 0, direction +1, both timestamps 0, all LEDs dark, and it satisfies the invariant |
| `KnightRider.NextMode` | Task5_KnightRider.cpp:18-19 | the mode after a press is always in 0..3; from 0..3 it maps 0→1, 1→2, 2→3, 3→1 and so lies in 1..3 |
| `KnightRider.ModeCycle` | Task5_KnightRider.cpp:18-19 | from any mode in 0..3, three more presses return to the mode reached by the first one |
| `KnightRider.Press` | Task5_KnightRider.cpp:13-22 | a press is accepted exactly when more than 200 ms have passed modulo 2^32. A rejected press changes nothing. An accepted one advances the mode, records `now` and changes nothing else. The invariant is kept |
| `KnightRider.Update` | Task5_KnightRider.cpp:36-62 | in mode 1 after 100 ms: exactly the pre-step index is lit, the scan takes the reference step, and `lastUpdate` is `now`. In mode 1 before 100 ms, and in modes 0 and 2, nothing changes. In mode 3 the LEDs go dark, the scan is rewound to (0, +1) and the mode becomes 0. The invariant is kept |
| `KnightRider.Run` | Task5_KnightRider.cpp:13-62 | every sequence of presses and loop passes applied to an invariant state yields an invariant state |
| `KnightRider.AlwaysInRange` | Task5_KnightRider.cpp:46-51 | after any events from start-up the mode is in 0..3, `ledIndex` is in 0..5 (so `ledPins[ledIndex]` is in bounds), and at most one LED is lit |
| `KnightRider.RunningUpdates` | Task5_KnightRider.cpp:39-51 | in mode 1 with passes at least 100 ms apart, k passes take k reference steps, stay in mode 1, record the last pass time, and leave lit exactly the index before the last step |
| `KnightRider.SweepFromStart` | Task5_KnightRider.cpp:42-51 | from (0, +1) in mode 1 the j-th frame lights LED `PosAt(j)` (0,1,2,3,4,5,4,3,2,1, repeating), and the scan after k passes is the closed form |
| `KnightRider.UpdatePeriod` | Task5_KnightRider.cpp:46-51 | ten frames in mode 1 bring the scan back to its starting index and direction |
| `KnightRider.ResetOnce` | Task5_KnightRider.cpp:53-61 | the reset of mode 3 is idempotent: the next loop pass finds mode 0 and changes nothing |
| `KnightRider.PauseResetRestart` | Task5_KnightRider.cpp:53-61 | from a running scan, two accepted presses and a loop pass leave mode 0 with all LEDs dark at (0, +1), and the next accepted press runs again |
| `KnightRider.DebounceWindow` | Task5_KnightRider.cpp:17-21 | after an accepted press at t1, a press at most 200 ms later is dropped without effect, and one more than 200 ms later advances the mode once more |
| `KnightRider.FirstPress` | Task5_KnightRider.cpp:14-17 | from start-up (`lastPress` 0) a press is dropped if and only if `millis()` is at most 200 |
| `KnightRider.Controller.constructor` | Task5_KnightRider.cpp:7-11 | the globals take their initial values and every LED pin starts LOW |
| `KnightRider.Controller.ButtonIsr` | Task5_KnightRider.cpp:13-22 | the ISR's in-place updates give the state `Press` describes and keep the invariant |
| `KnightRider.Controller.AllLow` | Task5_KnightRider.cpp:42-44 | the loop writing every LED pin LOW leaves all six pins LOW |
| `KnightRider.Controller.RunKnightRider` | Task5_KnightRider.cpp:36-62 | the loop's in-place updates (pins LOW, one HIGH, step, reflect; or reset) give the state `Update` describes and keep the invariant |

## Left out

- Peripheral set-up is not modelled, because it is register configuration
  with no algorithmic content. This covers `SystemInit`, `LED_Init`,
  `TCC0_Init` and `EIC_Init` in CODE5.0P.c, with the stray `=` at line 121,
  and `initLEDs` and `initButton` in Task5_KnightRider.cpp. The constructors
  only take over their effect on the initial state: LED pins cleared or LOW.
- `main` and its `__WFI` idle loop, and the Arduino `setup`/`loop` sketch
  that would call `runKnightRider`, are not modelled. Task5_KnightRider.h
  holds only declarations and the constant `LED_COUNT`, which the model uses.
- Checking and clearing interrupt flags, and NVIC priorities, are not
  modelled. Each handler runs once per event.
- Concurrency is not modelled: preemption of one handler by the other,
  interleaving with `runKnightRider`, and reads of stale `volatile` values.
  Handlers are atomic method calls, and `Run` covers every order of them.
- The time sources `TCC0->COUNT.reg` and `millis()` are parameters taking any
  `uint32` value. The hardware counter's actual range of 0..749 per 1 ms
  period is not modelled. Given that range, the gate of `EIC_Handler` does not
  measure 200 ms, whatever the comment at CODE5.0P.c:161 says. An edge
  300 ms after start-up whose reading is 100 is dropped when no edge was
  accepted before it. An edge 0.5 ms after
  start-up whose reading is 375 is accepted.
- Physical pin numbers (`ledPins` = 3..8, PA16..PA21, button pins 2 and 15)
  appear only as the mapping from LED index to output bit or array slot.
- `KnightRider.Controller.RunKnightRider`: `ledIndex` and `direction` are
  C `int`s, modelled as unbounded integers. The invariant keeps them within
  -1..5, so no width of `int` can overflow.
- `IrqScanner.Show`: requires the position to be below 6. For positions 6..14
  the C shift `1 << (16 + led_position)` is well defined and sets port pins
  PA22..PA30, which lie outside `LED_MASK`; the model does not cover these.
  From 15 up the shift is undefined: `1 << 31` shifts into the sign bit of
  `int`, and higher positions shift by 32 or more. Every reachable state
  satisfies the bound.
