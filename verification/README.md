# Joystick, OLED cursor and PWM LEDs: debounce and mapping model

This project models the firmware's pure logic for a Raspberry Pi Pico board. That board has a 2-axis
joystick, an SSD1306 OLED and three LEDs. Two pieces are modelled:

- **The button interrupt handler.** The handler owns four globals: the green LED flag, the PWM
  enable, the display polarity and the time of the last accepted edge. `Debounce.State` holds them.
  A falling edge on either button runs the handler once, and `Debounce.Step` is that run. It accepts
  an edge only when more than `DEBOUNCE_DELAY` (200) ms have passed since the last accepted edge.
  The elapsed time uses unsigned 32-bit subtraction, so it is taken modulo 2^32. Both buttons share
  this one clock. An accepted edge stamps the clock. On the main button it flips the green LED and
  the display polarity. On the additional button it flips the PWM enable. `Trace` looks at whole
  histories of edges: which were accepted, how far apart they are, and the flags as parities.
- **One pass of the main loop (cursor and PWM arithmetic).** Each pass turns the two 12-bit
  readings into two values:
  - the cursor position `4 + x*112/4095`, `52 - y*48/4095`;
  - a signed PWM value `24999 - r*50000/4095` for each axis.
  
  The PWM value goes through a dead zone that sets values of magnitude below 1000 to 0. Its
  magnitude is then written as the duty level: red takes X and blue takes Y. Both slices are enabled
  exactly when the PWM flag is set (`Mapping`).

Modules: `Config` holds the constants, `uint32` and the ADC `Reading` range. `Debounce`, `Trace`
and `Mapping` are described above.

Points about the code's behaviour that the model makes explicit:

- The debounce test is `> 200`, so an edge exactly 200 ms after the last accepted one is rejected.
- One clock is shared by both buttons. An accepted edge from either button opens a 200 ms window
  in which edges from both buttons are ignored (`Debounce.SharedWindow`).
- With the stick at rest (readings 2047/2047), integer arithmetic puts the cursor at column 59,
  row 29 (`Mapping.CentreScenario`).
- The duty level can reach 25001, two counts above the wrap value 24999. This happens only for a
  reading of 4095 (`Mapping.LevelAboveWrap`). Any level above the wrap value already holds the
  output high for the whole period, so the LED is simply fully on.

## Model

| member | source | states |
|---|---|---|
| Debounce.Init | ADC_DisplayC.c:29-32 | At power-on the green LED is off, PWM is on, the display is inverted and the clock reads 0, so the coupled-flag invariant holds from the start |
| Debounce.ElapsedValue | ADC_DisplayC.c:90 | The `uint32_t` difference is `now - prev` when `now >= prev` and wraps past 2^32 otherwise; adding it to `prev` modulo 2^32 gives back `now` |
| Debounce.Step | ADC_DisplayC.c:88-101 | The clock moves to `now` exactly when more than 200 ms (mod 2^32) have passed. LED flag and polarity change exactly on an accepted main-button edge, and the PWM flag exactly on an accepted additional-button edge. A rejected edge changes nothing. The coupled-flag invariant is preserved |
| Debounce.GreenWrite | ADC_DisplayC.c:93-95 | A pin is written only on an accepted main-button edge, and the write puts the flipped flag on `LED_G` |
| Debounce.OtherPinOnlyStamps | ADC_DisplayC.c:90-99 | An accepted edge from a pin that is neither button stamps the clock and changes no flag |
| Debounce.DoubleToggle | ADC_DisplayC.c:93-98 | Two accepted edges from the same pin restore all three flags; only the clock differs |
| Debounce.SharedWindow | ADC_DisplayC.c:90-91 | After an accepted edge at t1, an edge from either button within 200 ms (mod 2^32) of t1 is ignored entirely |
| Debounce.BootWindow | ADC_DisplayC.c:32 | From the power-on state an edge is ignored if and only if it comes at or before 200 ms |
| Debounce.ElapsedOfTrueTimes | ADC_DisplayC.c:89-90 | Take two true millisecond times, truncated to 32 bits. The modular difference equals the true gap mod 2^32, so counter wrap-around is handled for gaps below 2^32 |
| Debounce.LongSilenceAliases | ADC_DisplayC.c:89-90 | An edge 2^32 to 2^32 + 200 ms after the last accepted one is ignored, although far more than 200 ms have passed |
| Trace.Run | ADC_DisplayC.c:112-113 | Handling any sequence of edges in order preserves the coupled-flag invariant |
| Trace.Accepted | ADC_DisplayC.c:90-91 | The accepted edges are drawn from the history and are no more numerous than it |
| Trace.AcceptedInOrder | ADC_DisplayC.c:90-91 | The accepted edges are a subsequence of the history: some edges are dropped, and the rest keep their order |
| Trace.ClockIsLastAccepted | ADC_DisplayC.c:90-91 | After any history the clock holds the time of the last accepted edge, or its starting value if none was accepted |
| Trace.AcceptedAreSpaced | ADC_DisplayC.c:90-91 | Each accepted edge comes more than 200 ms (mod 2^32) after the previously accepted edge, whichever button each came from |
| Trace.LedParity | ADC_DisplayC.c:93-94 | After any history the green LED flag is its start value flipped once per accepted main-button edge |
| Trace.PolarityParity | ADC_DisplayC.c:93-96 | After any history the display polarity is its start value flipped once per accepted main-button edge |
| Trace.PwmParity | ADC_DisplayC.c:97-98 | After any history the PWM enable is its start value flipped once per accepted additional-button edge |
| Trace.ParityIsOddCount | ADC_DisplayC.c:93-98 | Flipping once per edge of a pin leaves the flag flipped exactly when the number of such edges is odd |
| Trace.FlagsAreParities | ADC_DisplayC.c:93-98 | After any history, the LED flag and the polarity are their start values flipped by the parity of accepted main-button edges, and the PWM flag by the parity of accepted additional-button edges |
| Trace.LedShowsFlag | ADC_DisplayC.c:94-95 | If the green pin starts at the flag's value, it equals the flag after every history |
| Trace.Replay | ADC_DisplayC.c:112-113 | Handling the edges one at a time from power-on gives the state `Run` describes, counts the accepted edges and keeps the invariant |
| Mapping.PosX | ADC_DisplayC.c:123 | The cursor column lies in 4..116, at 4 for reading 0 and at 116 for reading 4095 |
| Mapping.PosY | ADC_DisplayC.c:124 | The cursor row lies in 4..52, at 52 for reading 0 and at 4 for reading 4095 |
| Mapping.PosXMonotone | ADC_DisplayC.c:123 | A larger X reading never gives a smaller column |
| Mapping.PosYAntitone | ADC_DisplayC.c:124 | A larger Y reading never gives a larger row |
| Mapping.RawPwm | ADC_DisplayC.c:133-134 | The raw PWM value lies in -25001..24999. It is 24999 at reading 0 and -25001 at 4095. The product `r*50000` fits a C `int` |
| Mapping.RawPwmAntitone | ADC_DisplayC.c:133-134 | A larger reading never gives a larger raw PWM value |
| Mapping.DeadZone | ADC_DisplayC.c:136-137 | The result is 0 or the input. It keeps the input exactly when the input is 0 or of magnitude at least 1000. It is never a nonzero value below 1000 in magnitude |
| Mapping.DeadZoneIdempotent | ADC_DisplayC.c:136-137 | Applying the dead zone twice is the same as once |
| Mapping.Level | ADC_DisplayC.c:133-146 | The applied level is 0 or between 1000 and 25001, fits a `uint16_t`, and when nonzero is the magnitude of the raw value |
| Mapping.DeadBand | ADC_DisplayC.c:133-137 | The level is 0 if and only if the reading is in 1966..2129 |
| Mapping.LevelAboveWrap | ADC_DisplayC.c:133-146 | The level exceeds the wrap value 24999 if and only if the reading is 4095 |
| Mapping.LevelShape | ADC_DisplayC.c:133-146 | Below the dead band the level never rises as the reading grows; above it the level never falls |
| Mapping.LoopBody | ADC_DisplayC.c:123-146 | The cursor is at `PosX(x)`, `PosY(y)` and stays in bounds. Red is written to `LED_R` and blue to `LED_B`, and both slices are enabled exactly when the PWM flag is set. A nonzero red level is the magnitude of X's raw value, and a nonzero blue level that of Y's. The red level is 0 iff X is in the dead band, and likewise blue with Y. Both levels fit a `uint16_t` |
| Mapping.ChannelsSeparate | ADC_DisplayC.c:139-146 | The red channel depends only on X and the PWM flag; the blue channel depends only on Y and the PWM flag |
| Mapping.CentreScenario | ADC_DisplayC.c:123-146 | Readings 2047/2047 put the cursor at (59, 29), and both levels are 0 whatever the flags are |
| Mapping.CornerScenario | ADC_DisplayC.c:123-146 | X = 4095 and Y = 0 put the cursor at (116, 52), red at level 25001 and blue at 24999 |

## Left out

- Peripheral initialisation: GPIO directions and pull-ups, I2C, and the PWM slice clock divider and
  wrap (ADC_DisplayC.c:37-85). This is register set-up with no logic. `Trace.LedShowsFlag` states
  its conclusion for a green pin that starts at the flag's value. Starting low, as after pin
  initialisation, gives that.
- The SSD1306 display calls: fill, border rectangle with colours from the polarity flag, glyph
  drawing and the frame flush (ADC_DisplayC.c:64-68, 127-130). The display driver library is not
  part of this model. Only the cursor coordinates handed to it are modelled.
- ADC sampling (`adc_select_input`, `adc_read`). The readings are parameters of type `Reading`
  (0..4095).
- The millisecond clock `to_ms_since_boot(get_absolute_time())`. The handler's time is a `uint32`
  parameter. `Debounce.ElapsedOfTrueTimes` relates it to a true, unbounded time.
- Concurrency between the interrupt and the main loop, and `volatile`. Each interrupt is one
  atomic `Step`. The loop body is a pure function of the readings and the flags at that moment.
- Floating point. `pos_x`, `pos_y` and the PWM values are `float` variables, but they only ever
  hold integers computed in `int`, well below 2^24, so they are exact. `fabs` is `Mapping.Abs`.
  The conversions of these floats to the driver's and `pwm_set_gpio_level`'s integer parameters
  are exact for the same reason.
- The handler's `events` argument is not used by the code and is not modelled.
