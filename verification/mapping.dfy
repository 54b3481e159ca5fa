/**
 The main loop's arithmetic: joystick readings to cursor position, and to
 the duty levels of the red and blue LEDs with a dead zone around the
 stick's centre. Every expression is C `int` arithmetic on non-negative
 operands before it is stored, so truncating division is Dafny's `/`.
 */
module Mapping {
  import opened Config
  import Debounce

  function Abs(v: int): (a: nat)
    ensures a == v || a == -v
  {
    if v < 0 then -v else v
  }

  /** A reading scaled by `k / ADC_MAX` in integer arithmetic. */
  function Scale(r: Reading, k: nat): (q: int)
    ensures 0 <= q <= k
  {
    r * k / ADC_MAX
  }

  /** Scaling preserves the order of readings. */
  lemma ScaleMonotone(r1: Reading, r2: Reading, k: nat)
    requires r1 <= r2
    ensures Scale(r1, k) <= Scale(r2, k)
  {
  }

  /** Column of the cursor glyph for X reading `x`: inside the border, at
      the left margin for x = 0 and the right one for x = ADC_MAX. */
  function PosX(x: Reading): (c: int)
    ensures X_ORIGIN <= c <= X_ORIGIN + X_RANGE
    ensures x == 0 ==> c == X_ORIGIN
    ensures x == ADC_MAX ==> c == X_ORIGIN + X_RANGE
  {
    X_ORIGIN + Scale(x, X_RANGE)
  }

  /** Row of the cursor glyph for Y reading `y`: a larger reading moves the
      cursor up, from the bottom margin at y = 0 to the top at y = ADC_MAX. */
  function PosY(y: Reading): (c: int)
    ensures Y_ORIGIN - Y_RANGE <= c <= Y_ORIGIN
    ensures y == 0 ==> c == Y_ORIGIN
    ensures y == ADC_MAX ==> c == Y_ORIGIN - Y_RANGE
  {
    Y_ORIGIN - Scale(y, Y_RANGE)
  }

  /** Moving the stick right never moves the cursor left. */
  lemma PosXMonotone(x1: Reading, x2: Reading)
    requires x1 <= x2
    ensures PosX(x1) <= PosX(x2)
  {
  }

  /** Moving the stick up never moves the cursor down the screen. */
  lemma PosYAntitone(y1: Reading, y2: Reading)
    requires y1 <= y2
    ensures PosY(y2) <= PosY(y1)
  {
  }

  /** Signed PWM value for one axis, before the dead zone: PWM_LIMIT at one
      end of the stick's travel, PWM_LIMIT - PWM_SPAN at the other. The
      product `r * PWM_SPAN` fits a C `int`, so no overflow occurs. */
  function RawPwm(r: Reading): (v: int)
    ensures PWM_LIMIT - PWM_SPAN <= v <= PWM_LIMIT
    ensures r == 0 ==> v == PWM_LIMIT
    ensures r == ADC_MAX ==> v == PWM_LIMIT - PWM_SPAN
    ensures 0 <= r * PWM_SPAN <= INT_MAX
  {
    PWM_LIMIT - Scale(r, PWM_SPAN)
  }

  /** A larger reading never gives a larger raw PWM value. */
  lemma RawPwmAntitone(r1: Reading, r2: Reading)
    requires r1 <= r2
    ensures RawPwm(r2) <= RawPwm(r1)
  {
  }

  /** Values of magnitude below DEAD_ZONE become 0; others pass unchanged. */
  function DeadZone(v: int): (d: int)
    ensures d == 0 || d == v
    ensures d == v <==> v == 0 || DEAD_ZONE <= Abs(v)
    ensures d == 0 || DEAD_ZONE <= Abs(d)
  {
    if Abs(v) < DEAD_ZONE then 0 else v
  }

  /** Applying the dead zone a second time changes nothing. */
  lemma DeadZoneIdempotent(v: int)
    ensures DeadZone(DeadZone(v)) == DeadZone(v)
  {
  }

  /** Duty level written to an LED's PWM channel for one axis reading: the
      magnitude of the dead-zoned raw value, so it is off or at least
      DEAD_ZONE, and always fits the `uint16_t` level argument. */
  function Level(r: Reading): (lvl: nat)
    ensures lvl == 0 || DEAD_ZONE <= lvl <= PWM_SPAN - PWM_LIMIT
    ensures lvl <= UINT16_MAX
    ensures lvl == 0 || lvl == Abs(RawPwm(r))
  {
    Abs(DeadZone(RawPwm(r)))
  }

  /** The readings for which the LED is off: exactly 1966..2129, a band of
      164 counts around the stick's resting position. */
  lemma DeadBand(r: Reading)
    ensures Level(r) == 0 <==> 1966 <= r <= 2129
  {
  }

  /** Only a reading of ADC_MAX produces a level above the PWM wrap value
      (PWM_SPAN - PWM_LIMIT = 25001 > PWM_LIMIT); every other reading stays
      within the counter's range. */
  lemma LevelAboveWrap(r: Reading)
    ensures PWM_LIMIT < Level(r) <==> r == ADC_MAX
  {
  }

  /** The level falls as the stick moves from one end towards the dead band,
      and rises again beyond it: brightness follows deflection, not sign. */
  lemma LevelShape(r1: Reading, r2: Reading)
    requires r1 <= r2
    ensures r2 <= 1965 ==> Level(r2) <= Level(r1)
    ensures 2130 <= r1 ==> Level(r1) <= Level(r2)
  {
  }

  /** One LED's PWM output as the loop leaves it: the pin, whether its slice
      is enabled, and the level written to it. */
  datatype Channel = Channel(pin: nat, enabled: bool, level: nat)

  /** What one pass of the main loop produces from the two readings and the
      handler's flags: the cursor position and the red and blue channels. */
  datatype Outputs = Outputs(posX: int, posY: int, red: Channel, blue: Channel)

  /** One pass of the main loop: the red LED follows X, the blue LED follows
      Y, and both slices are enabled exactly when the PWM flag is set. */
  function LoopBody(s: Debounce.State, y: Reading, x: Reading): (o: Outputs)
    ensures o.red.enabled == s.pwmActive && o.blue.enabled == s.pwmActive
    ensures o.red.pin == LED_R && o.blue.pin == LED_B
    ensures o.posX == PosX(x) && o.posY == PosY(y)
    ensures X_ORIGIN <= o.posX <= X_ORIGIN + X_RANGE
    ensures Y_ORIGIN - Y_RANGE <= o.posY <= Y_ORIGIN
    ensures o.red.level == 0 || o.red.level == Abs(RawPwm(x))
    ensures o.blue.level == 0 || o.blue.level == Abs(RawPwm(y))
    ensures o.red.level == 0 <==> 1966 <= x <= 2129
    ensures o.blue.level == 0 <==> 1966 <= y <= 2129
    ensures o.red.level <= UINT16_MAX && o.blue.level <= UINT16_MAX
  {
    DeadBand(x);
    DeadBand(y);
    Outputs(PosX(x), PosY(y), Channel(LED_R, s.pwmActive, Level(x)), Channel(LED_B, s.pwmActive, Level(y)))
  }

  /** Each LED depends on its own axis only, and the channels depend on no
      flag but the PWM enable. */
  lemma ChannelsSeparate(s: Debounce.State, s': Debounce.State, y: Reading, x: Reading, y': Reading, x': Reading)
    requires s.pwmActive == s'.pwmActive
    ensures x == x' ==> LoopBody(s, y, x).red == LoopBody(s', y', x').red
    ensures y == y' ==> LoopBody(s, y, x).blue == LoopBody(s', y', x').blue
  {
  }

  /** Stick at rest (both readings 2047): cursor at column 59, row 29, and
      both LEDs off whatever the PWM flag says. */
  lemma CentreScenario(s: Debounce.State)
    ensures LoopBody(s, 2047, 2047) == Outputs(59, 29, Channel(LED_R, s.pwmActive, 0), Channel(LED_B, s.pwmActive, 0))
  {
  }

  /** Stick fully right and down (x = 4095, y = 0): red at level 25001 from
      a raw value of -25001, blue at 24999. */
  lemma CornerScenario(s: Debounce.State)
    ensures RawPwm(ADC_MAX) == -25001
    ensures LoopBody(s, 0, ADC_MAX) == Outputs(116, 52, Channel(LED_R, s.pwmActive, 25001), Channel(LED_B, s.pwmActive, 24999))
  {
  }
}
