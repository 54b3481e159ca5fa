/**
 Board constants and machine integer ranges of the joystick/OLED/PWM firmware.
 The pins and numeric constants of the modelled code are named once here.
 */
module Config {

  /** Pin of the joystick's push button (falling edge toggles LED and display). */
  const BTN_MAIN: nat := 22
  /** Pin of the additional button (falling edge toggles PWM output). */
  const BTN_ALT: nat := 5
  /** Pins of the three LEDs: red and blue are PWM driven (red follows the
      X axis, blue the Y axis), green is plain on/off. */
  const LED_R: nat := 13
  const LED_B: nat := 12
  const LED_G: nat := 11

  /** Wrap value of both PWM slices; also the offset of the raw PWM value. */
  const PWM_LIMIT: int := 24999
  /** Minimum time, in ms, between two accepted button edges. */
  const DEBOUNCE_DELAY: int := 200

  /** Largest value of the 12-bit ADC, also the divisor of every scaling. */
  const ADC_MAX: int := 4095
  /** Span of the raw PWM value over the full ADC range. */
  const PWM_SPAN: int := 50000
  /** Raw PWM values whose magnitude is below this are forced to zero. */
  const DEAD_ZONE: int := 1000

  /** Cursor scaling: column = X_ORIGIN + x*X_RANGE/ADC_MAX, row = Y_ORIGIN - y*Y_RANGE/ADC_MAX. */
  const X_ORIGIN: int := 4
  const X_RANGE: int := 112
  const Y_ORIGIN: int := 52
  const Y_RANGE: int := 48

  /** 2^32: the modulus of `uint32_t` arithmetic. */
  const TWO_32: int := 0x1_0000_0000

  /** Largest value of a C `int` (32-bit two's complement). */
  const INT_MAX: int := 0x7FFF_FFFF

  /** Largest value of a `uint16_t`, the type of a PWM level. */
  const UINT16_MAX: int := 0xFFFF

  /** A value of C type `uint32_t`. */
  type uint32 = x: int | 0 <= x < TWO_32

  /** A 12-bit ADC reading as returned in a `uint16_t`. */
  type Reading = r: int | 0 <= r <= ADC_MAX
}
