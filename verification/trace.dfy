/**
 Sequences of button interrupts. The handler is registered for falling edges
 of both buttons and runs to completion once per edge, so the globals after
 a history of edges are the handler's steps applied in order.
 */
module Trace {
  import opened Config
  import opened Debounce

  /** One falling edge: the pin it came from and the ms counter when it ran. */
  datatype Edge = Edge(pin: nat, now: uint32)

  /** The state after handling `edges` in order, starting from `s`. */
  function Run(s: State, edges: seq<Edge>): (r: State)
    ensures Coupled(s) ==> Coupled(r)
    decreases |edges|
  {
    if edges == [] then s
    else
      var e := edges[|edges| - 1];
      Step(Run(s, edges[..|edges| - 1]), e.pin, e.now)
  }

  /** `a` is `b` with some elements removed, the rest kept in their order. */
  predicate Subsequence(a: seq<Edge>, b: seq<Edge>)
    decreases |b|
  {
    if a == [] then true
    else if b == [] then false
    else
      || Subsequence(a, b[..|b| - 1])
      || (a[|a| - 1] == b[|b| - 1] && Subsequence(a[..|a| - 1], b[..|b| - 1]))
  }

  /** The edges the handler accepted, in the order they came. */
  function Accepted(s: State, edges: seq<Edge>): (acc: seq<Edge>)
    ensures |acc| <= |edges|
    ensures forall i :: 0 <= i < |acc| ==> acc[i] in edges
    decreases |edges|
  {
    if edges == [] then []
    else
      var prefix, e := edges[..|edges| - 1], edges[|edges| - 1];
      var before := Accepted(s, prefix);
      if Accepts(Run(s, prefix), e.now) then before + [e] else before
  }

  /** The accepted edges keep the order in which the edges came. */
  lemma {:induction false} AcceptedInOrder(s: State, edges: seq<Edge>)
    ensures Subsequence(Accepted(s, edges), edges)
    decreases |edges|
  {
    if edges != [] {
      var prefix, e := edges[..|edges| - 1], edges[|edges| - 1];
      var before := Accepted(s, prefix);
      AcceptedInOrder(s, prefix);
      if Accepts(Run(s, prefix), e.now) {
        assert (before + [e])[..|before|] == before;
      }
    }
  }

  /** How many edges in `edges` came from `pin`. */
  function CountPin(edges: seq<Edge>, pin: nat): (n: nat)
    ensures n <= |edges|
    decreases |edges|
  {
    if edges == [] then 0
    else CountPin(edges[..|edges| - 1], pin) + (if edges[|edges| - 1].pin == pin then 1 else 0)
  }

  predicate Odd(n: nat) {
    n % 2 == 1
  }

  /** Counting one more flips the parity; counting nothing keeps it. */
  lemma OddStep(n: nat, b: bool)
    ensures Odd(n + (if b then 1 else 0)) == (Odd(n) != b)
  {
  }

  /** Each accepted edge came more than DEBOUNCE_DELAY ms (mod 2^32) after
      the one accepted before it, the first one after `start`. */
  predicate Spaced(start: uint32, acc: seq<Edge>) {
    && (|acc| > 0 ==> Elapsed(acc[0].now, start) > DEBOUNCE_DELAY)
    && forall i :: 0 < i < |acc| ==> Elapsed(acc[i].now, acc[i - 1].now) > DEBOUNCE_DELAY
  }

  /** The debounce clock always holds the time of the last accepted edge, or
      its starting value when none was accepted. */
  lemma {:induction false} ClockIsLastAccepted(s: State, edges: seq<Edge>)
    ensures var acc := Accepted(s, edges);
      Run(s, edges).prevTime == if acc == [] then s.prevTime else acc[|acc| - 1].now
    decreases |edges|
  {
    if edges != [] {
      ClockIsLastAccepted(s, edges[..|edges| - 1]);
    }
  }

  /** Accepted edges are separated by more than DEBOUNCE_DELAY ms, whichever
      button each came from. */
  lemma {:induction false} AcceptedAreSpaced(s: State, edges: seq<Edge>)
    ensures Spaced(s.prevTime, Accepted(s, edges))
    decreases |edges|
  {
    if edges != [] {
      var prefix := edges[..|edges| - 1];
      var e, before := edges[|edges| - 1], Accepted(s, prefix);
      AcceptedAreSpaced(s, prefix);
      ClockIsLastAccepted(s, prefix);
      if Accepts(Run(s, prefix), e.now) {
        var acc := before + [e];
        forall i | 0 < i < |acc|
          ensures Elapsed(acc[i].now, acc[i - 1].now) > DEBOUNCE_DELAY
        {
          if i < |before| {
            assert acc[i] == before[i] && acc[i - 1] == before[i - 1];
          } else {
            assert acc[i] == e && acc[i - 1] == before[|before| - 1];
          }
        }
      }
    }
  }

  /** Whether an odd number of `edges` came from `pin`, computed edge by edge. */
  function Parity(edges: seq<Edge>, pin: nat): bool
    decreases |edges|
  {
    if edges == [] then false
    else Parity(edges[..|edges| - 1], pin) != (edges[|edges| - 1].pin == pin)
  }

  lemma ParitySnoc(edges: seq<Edge>, e: Edge, pin: nat)
    ensures Parity(edges + [e], pin) == (Parity(edges, pin) != (e.pin == pin))
  {
    assert (edges + [e])[..|edges|] == edges;
  }

  /** The edge-by-edge parity is the parity of the count. */
  lemma {:induction false} ParityIsOddCount(edges: seq<Edge>, pin: nat)
    ensures Parity(edges, pin) == Odd(CountPin(edges, pin))
    decreases |edges|
  {
    if edges != [] {
      var prefix, e := edges[..|edges| - 1], edges[|edges| - 1];
      ParityIsOddCount(prefix, pin);
      OddStep(CountPin(prefix, pin), e.pin == pin);
    }
  }

  /** The green LED flag has been flipped once per accepted main-button edge. */
  lemma {:induction false} LedParity(s: State, edges: seq<Edge>)
    ensures Run(s, edges).ledGreen == (s.ledGreen != Parity(Accepted(s, edges), BTN_MAIN))
    decreases |edges|
  {
    if edges != [] {
      var prefix, e := edges[..|edges| - 1], edges[|edges| - 1];
      LedParity(s, prefix);
      var before := Accepted(s, prefix);
      if Accepts(Run(s, prefix), e.now) {
        ParitySnoc(before, e, BTN_MAIN);
      }
    }
  }

  /** The display polarity has been flipped once per accepted main-button edge. */
  lemma {:induction false} PolarityParity(s: State, edges: seq<Edge>)
    ensures Run(s, edges).displayInverted == (s.displayInverted != Parity(Accepted(s, edges), BTN_MAIN))
    decreases |edges|
  {
    if edges != [] {
      var prefix, e := edges[..|edges| - 1], edges[|edges| - 1];
      PolarityParity(s, prefix);
      var before := Accepted(s, prefix);
      if Accepts(Run(s, prefix), e.now) {
        ParitySnoc(before, e, BTN_MAIN);
      }
    }
  }

  /** The PWM enable has been flipped once per accepted additional-button edge. */
  lemma {:induction false} PwmParity(s: State, edges: seq<Edge>)
    ensures Run(s, edges).pwmActive == (s.pwmActive != Parity(Accepted(s, edges), BTN_ALT))
    decreases |edges|
  {
    if edges != [] {
      var prefix, e := edges[..|edges| - 1], edges[|edges| - 1];
      PwmParity(s, prefix);
      var before := Accepted(s, prefix);
      if Accepts(Run(s, prefix), e.now) {
        ParitySnoc(before, e, BTN_ALT);
      }
    }
  }

  /** The three flags together: each is its starting value flipped by the
      parity of the accepted edges of the button that toggles it. */
  lemma FlagsAreParities(s: State, edges: seq<Edge>)
    ensures var acc := Accepted(s, edges);
      && Run(s, edges).ledGreen == (s.ledGreen != Odd(CountPin(acc, BTN_MAIN)))
      && Run(s, edges).displayInverted == (s.displayInverted != Odd(CountPin(acc, BTN_MAIN)))
      && Run(s, edges).pwmActive == (s.pwmActive != Odd(CountPin(acc, BTN_ALT)))
  {
    LedParity(s, edges);
    PolarityParity(s, edges);
    PwmParity(s, edges);
    ParityIsOddCount(Accepted(s, edges), BTN_MAIN);
    ParityIsOddCount(Accepted(s, edges), BTN_ALT);
  }

  /** The level last written to the green LED pin, `level` if none was. */
  function GreenPin(level: bool, s: State, edges: seq<Edge>): bool
    decreases |edges|
  {
    if edges == [] then level
    else
      var prefix, e := edges[..|edges| - 1], edges[|edges| - 1];
      match GreenWrite(Run(s, prefix), e.pin, e.now)
      case Some(PinWrite(_, v)) => v
      case None => GreenPin(level, s, prefix)
  }

  /** The green LED shows the flag: if the pin starts at the flag's value,
      the handler's writes keep it there after every edge. */
  lemma {:induction false} LedShowsFlag(s: State, edges: seq<Edge>)
    ensures GreenPin(s.ledGreen, s, edges) == Run(s, edges).ledGreen
    decreases |edges|
  {
    if edges != [] {
      LedShowsFlag(s, edges[..|edges| - 1]);
    }
  }

  /** Handles `edges` one by one from the power-on state, as the firmware
      does over its lifetime, and counts the edges that passed the debounce. */
  method Replay(edges: seq<Edge>) returns (s: State, accepted: nat)
    ensures s == Run(Init(), edges)
    ensures accepted == |Accepted(Init(), edges)|
    ensures Coupled(s)
  {
    s, accepted := Init(), 0;
    var i := 0;
    while i < |edges|
      invariant 0 <= i <= |edges|
      invariant s == Run(Init(), edges[..i])
      invariant accepted == |Accepted(Init(), edges[..i])|
    {
      var e := edges[i];
      assert edges[..i + 1][..i] == edges[..i];
      if Accepts(s, e.now) {
        accepted := accepted + 1;
      }
      s := Step(s, e.pin, e.now);
      i := i + 1;
    }
    assert edges[..|edges|] == edges;
  }
}
