/**
 The button interrupt handler: a time-threshold debounce on one clock shared
 by both buttons, and the toggles each accepted edge performs.

 The four globals the handler owns form one immutable `State`; each
 interrupt is one atomic transition `Step(state, pin, now)`.
 */
module Debounce {
  import opened Config

  /** The handler's shared variables: green LED flag, PWM enable, display
      polarity and the time (ms since boot, 32-bit) of the last accepted edge. */
  datatype State = State(
    ledGreen: bool,
    pwmActive: bool,
    displayInverted: bool,
    prevTime: uint32)

  /** The green LED is lit exactly when the display is not inverted. Every
      accepted main-button edge flips both, and no other edge touches either. */
  predicate Coupled(s: State) {
    s.ledGreen == !s.displayInverted
  }

  /** The values the globals hold at power-on. */
  function Init(): (s: State)
    ensures !s.ledGreen && s.pwmActive && s.displayInverted && s.prevTime == 0
    ensures Coupled(s)
  {
    State(false, true, true, 0)
  }

  /** Milliseconds from `prev` to `now` as unsigned 32-bit subtraction computes
      them: the difference reduced modulo 2^32. */
  function Elapsed(now: uint32, prev: uint32): uint32 {
    (now - prev) % TWO_32
  }

  /** The unsigned difference is the plain one when `now` has not wrapped
      below `prev`, and otherwise counts on past 2^32; either way, adding
      it to `prev` modulo 2^32 gives `now` back. */
  lemma ElapsedValue(now: uint32, prev: uint32)
    ensures prev <= now ==> Elapsed(now, prev) == now - prev
    ensures now < prev ==> Elapsed(now, prev) == now + TWO_32 - prev
    ensures (prev + Elapsed(now, prev)) % TWO_32 == now
  {
  }

  /** An edge at `now` passes the debounce test when strictly more than
      DEBOUNCE_DELAY ms have passed since the last accepted edge. */
  predicate Accepts(s: State, now: uint32) {
    Elapsed(now, s.prevTime) > DEBOUNCE_DELAY
  }

  /** One run of the interrupt handler for a falling edge on `pin` at `now`. */
  function Step(s: State, pin: nat, now: uint32): (r: State)
    // the clock moves to `now` exactly on acceptance
    ensures r.prevTime == (if Accepts(s, now) then now else s.prevTime)
    // which flag changes, for which edge
    ensures r.ledGreen != s.ledGreen <==> Accepts(s, now) && pin == BTN_MAIN
    ensures r.displayInverted != s.displayInverted <==> Accepts(s, now) && pin == BTN_MAIN
    ensures r.pwmActive != s.pwmActive <==> Accepts(s, now) && pin == BTN_ALT
    // a rejected edge leaves everything as it was
    ensures !Accepts(s, now) ==> r == s
    ensures Coupled(s) ==> Coupled(r)
  {
    if Elapsed(now, s.prevTime) > DEBOUNCE_DELAY then
      var s' := s.(prevTime := now);
      if pin == BTN_MAIN then
        s'.(ledGreen := !s'.ledGreen, displayInverted := !s'.displayInverted)
      else if pin == BTN_ALT then
        s'.(pwmActive := !s'.pwmActive)
      else
        s'
    else
      s
  }

  datatype Option<T> = None | Some(value: T)

  /** A `gpio_put`: the output pin and the level driven onto it. */
  datatype PinWrite = PinWrite(pin: nat, level: bool)

  /** What the handler writes to an output pin: the green LED pin gets the
      new flag after an accepted main-button edge; nothing is written
      otherwise. */
  function GreenWrite(s: State, pin: nat, now: uint32): (w: Option<PinWrite>)
    ensures w.Some? <==> Accepts(s, now) && pin == BTN_MAIN
    ensures w.Some? ==> w.value == PinWrite(LED_G, !s.ledGreen)
  {
    if Accepts(s, now) && pin == BTN_MAIN then Some(PinWrite(LED_G, Step(s, pin, now).ledGreen)) else None
  }

  /** An edge from a pin that is neither button is still accepted: it
      restarts the debounce window while leaving every flag as it was. */
  lemma OtherPinOnlyStamps(s: State, pin: nat, now: uint32)
    requires Accepts(s, now) && pin != BTN_MAIN && pin != BTN_ALT
    ensures Step(s, pin, now) == s.(prevTime := now)
  {
  }

  /** Two accepted edges of the same button restore every flag. */
  lemma DoubleToggle(s: State, pin: nat, t1: uint32, t2: uint32)
    requires Accepts(s, t1) && Accepts(Step(s, pin, t1), t2)
    ensures var r := Step(Step(s, pin, t1), pin, t2);
      r == s.(prevTime := t2)
  {
  }

  /** The debounce clock is shared: once an edge from either button is
      accepted at t1, an edge from either button within DEBOUNCE_DELAY ms
      (measured modulo 2^32) is ignored. */
  lemma SharedWindow(s: State, p1: nat, t1: uint32, p2: nat, t2: uint32)
    requires Accepts(s, t1)
    requires Elapsed(t2, t1) <= DEBOUNCE_DELAY
    ensures Step(Step(s, p1, t1), p2, t2) == Step(s, p1, t1)
  {
  }

  /** Right after power-on the last accepted edge is taken to be at 0 ms, so
      every edge in the first DEBOUNCE_DELAY ms is ignored. */
  lemma BootWindow(pin: nat, now: uint32)
    ensures Step(Init(), pin, now) == Init() <==> now <= DEBOUNCE_DELAY
  {
  }

  /** The 32-bit millisecond counter wraps after about 49.7 days. For a true
      gap `g` below 2^32 ms the modular difference is exactly `g`, so the
      wrap of the counter is harmless; for a gap of 2^32 + g ms it is
      again `g`, so an edge after a long silence can still be ignored. */
  lemma ElapsedOfTrueTimes(t1: nat, g: nat)
    ensures Elapsed(((t1 + g) % TWO_32) as uint32, (t1 % TWO_32) as uint32) == g % TWO_32
  {
  }

  /** Because of that, an edge that comes 2^32 + g ms after the last
      accepted one, with g <= DEBOUNCE_DELAY, is ignored even though far
      more than DEBOUNCE_DELAY ms have passed. */
  lemma LongSilenceAliases(s: State, t1: nat, g: nat)
    requires s.prevTime == t1 % TWO_32
    requires TWO_32 <= g <= TWO_32 + DEBOUNCE_DELAY
    ensures !Accepts(s, ((t1 + g) % TWO_32) as uint32)
  {
  }
}
