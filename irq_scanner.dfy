/** The interrupt-driven scanner of CODE5.0P.c: a timer-overflow handler that
    moves the lit LED one place per tick while running, and a button handler
    that, behind a software debounce, starts the scan or stops and resets it.
    The LEDs sit on pins PA16..PA21 of PORT A; the port's output register is
    modelled as a 32-bit word. */
module IrqScanner {
  import opened Fixed
  import Leds
  import Bounce

  const NUM_LEDS: int := 6
  const LED_START_PIN: int := 16
  /** Pins PA16..PA21. */
  const LED_MASK: bv32 := 0x3F << 16
  /** The amount by which a counter reading must differ, modulo 2^32, from
      the last accepted one for a button edge to be accepted. */
  const DEBOUNCE: int := 200

  /** The output-register bit driving LED `p`: `1 << (LED_START_PIN + p)`. */
  function LedBit(p: nat): bv32
    requires p < NUM_LEDS
  {
    (1 as bv32) << (LED_START_PIN + p)
  }

  /** LED `i` is lit when its output-register bit is set. */
  predicate IsLit(out: bv32, i: nat)
    requires i < NUM_LEDS
  {
    out & LedBit(i) != 0
  }

  /** The LED vector an output-register value shows. */
  function Lit(out: bv32): (r: seq<bool>)
    ensures |r| == Leds.N
  {
    seq(Leds.N, (i: int) requires 0 <= i < Leds.N => IsLit(out, i))
  }

  /** The globals `led_position`, `direction`, `is_running` and
      `last_button_time`, and the PORT A output register. */
  datatype State = State(
    position: uint8,
    direction: int8,
    running: uint8,
    lastButton: uint32,
    out: bv32)

  function ScanOf(s: State): Bounce.Scan {
    Bounce.Scan(s.position, s.direction)
  }

  /** The reachable states: the scan invariant holds, and the LEDs are either
      all dark (before the first update) or show exactly the current position. */
  predicate Inv(s: State) {
    && Bounce.Inv(ScanOf(s))
    && (Lit(s.out) == Leds.Dark() || Lit(s.out) == Leds.OneHot(s.position))
  }

  /** The state after reset: the globals' initialisers, and the LED pins
      cleared by the initialisation of the port. */
  function Initial(port: bv32): (s: State)
    ensures Inv(s)
    ensures ScanOf(s) == Bounce.Start && s.running == 0 && s.lastButton == 0
    ensures Lit(s.out) == Leds.Dark()
    ensures s.out & !LED_MASK == port & !LED_MASK
  {
    Cleared(port);
    State(0, 1, 0, 0, port & !LED_MASK)
  }

  /** With the mask cleared no LED is lit. */
  lemma Cleared(out: bv32)
    ensures Lit(out & !LED_MASK) == Leds.Dark()
  {
  }

  /** `update_leds` on the output register: clear every LED pin, then set the
      pin of LED `p`. Exactly LED `p` is lit afterwards, and the port's other
      pins keep their levels. */
  function ShowOut(out: bv32, p: nat): (w: bv32)
    requires p < NUM_LEDS
    ensures Lit(w) == Leds.OneHot(p)
    ensures w & !LED_MASK == out & !LED_MASK
  {
    var w := (out & !LED_MASK) | LedBit(p);
    forall i | 0 <= i < Leds.N
      ensures Lit(w)[i] == Leds.OneHot(p)[i]
    {
      OneLedBit(out, p, i);
    }
    OtherPins(out, p);
    w
  }

  lemma OtherPins(out: bv32, p: nat)
    requires p < NUM_LEDS
    ensures ((out & !LED_MASK) | LedBit(p)) & !LED_MASK == out & !LED_MASK
  {
  }

  /** `update_leds` on the whole state: only the output register changes. */
  function Show(s: State): (r: State)
    requires s.position < NUM_LEDS
    ensures Lit(r.out) == Leds.OneHot(s.position)
    ensures r.out & !LED_MASK == s.out & !LED_MASK
    ensures r.(out := s.out) == s
  {
    s.(out := ShowOut(s.out, s.position))
  }

  lemma OneLedBit(out: bv32, p: nat, i: nat)
    requires p < NUM_LEDS && i < NUM_LEDS
    ensures IsLit((out & !LED_MASK) | LedBit(p), i) <==> i == p
  {
  }

  /** `led_position += direction`, then `direction = -direction` when the new
      position is an end, in the C types: the sum is truncated to `uint8_t`
      and the negation to `int8_t`. */
  function Advance(position: uint8, direction: int8): (r: (uint8, int8))
    ensures Bounce.Inv(Bounce.Scan(position, direction)) ==>
              Bounce.Scan(r.0, r.1) == Bounce.Step(Bounce.Scan(position, direction))
  {
    var p := ToU8(position + direction);
    (p, if p == 0 || p == NUM_LEDS - 1 then ToS8(-(direction as int)) else direction)
  }

  /** Outside the invariant the `uint8_t` position would wrap: stepping down
      from 0 lands on 255. */
  lemma AdvanceWraps()
    ensures Advance(0, -1) == (255, -1)
    ensures Advance(5, 1) == (6, 1)
  {
  }

  /** `TCC0_Handler`, once per timer overflow. */
  function Tick(s: State): (r: State)
    requires Inv(s)
    ensures Inv(r)
    ensures s.running == 0 ==> r == s
    ensures s.running != 0 ==>
              && ScanOf(r) == Bounce.Step(ScanOf(s))
              && Lit(r.out) == Leds.OneHot(r.position)
              && r.out & !LED_MASK == s.out & !LED_MASK
              && r.running == s.running && r.lastButton == s.lastButton
  {
    if s.running == 0 then s
    else
      Bounce.StepInv(ScanOf(s));
      var (p, d) := Advance(s.position, s.direction);
      Show(s.(position := p, direction := d))
  }

  /** The debounce gate: the edge is accepted when its counter reading `t`
      differs from the last accepted reading `last` by more than `DEBOUNCE`,
      modulo 2^32. The counter restarts every millisecond, so this compares
      readings rather than measuring 200 ms. */
  predicate Accepts(t: uint32, last: uint32) {
    Sub32(t, last) > DEBOUNCE
  }

  /** `EIC_Handler`, once per falling edge of the button, `t` being the
      counter value it reads. */
  function Edge(s: State, t: uint32): (r: State)
    ensures Inv(s) ==> Inv(r)
    ensures !Accepts(t, s.lastButton) ==> r == s
    ensures Accepts(t, s.lastButton) ==>
              && r.lastButton == t
              && (r.running == 0 <==> s.running != 0)
              && r.out & !LED_MASK == s.out & !LED_MASK
    ensures Accepts(t, s.lastButton) && s.running == 0 ==>
              r.running == 1 && ScanOf(r) == ScanOf(s) && r.out == s.out
    ensures Accepts(t, s.lastButton) && s.running != 0 ==>
              ScanOf(r) == Bounce.Start && Lit(r.out) == Leds.OneHot(0)
  {
    if !Accepts(t, s.lastButton) then s
    else if s.running == 0 then s.(lastButton := t, running := 1)
    else Show(s.(lastButton := t, running := 0, position := 0, direction := 1))
  }

  /** The hardware events the two handlers serve. */
  datatype Event = Overflow | ButtonFall(t: uint32)

  function Apply(s: State, e: Event): (r: State)
    requires Inv(s)
    ensures Inv(r)
  {
    match e
    case Overflow => Tick(s)
    case ButtonFall(t) => Edge(s, t)
  }

  /** The state after the events `es`, in order. */
  function Run(s: State, es: seq<Event>): (r: State)
    requires Inv(s)
    ensures Inv(r)
    decreases |es|
  {
    if es == [] then s else Run(Apply(s, es[0]), es[1..])
  }

  /** `k` timer overflows. */
  function Ticks(s: State, k: nat): (r: State)
    requires Inv(s)
    ensures Inv(r)
  {
    if k == 0 then s else Tick(Ticks(s, k - 1))
  }

  /** Whatever the interleaving of ticks and button edges after reset, the
      position stays on the strip, the direction is a unit step pointing
      inward at the ends, and the LEDs show nothing or the current position. */
  lemma AlwaysInRange(port: bv32, es: seq<Event>)
    ensures 0 <= Run(Initial(port), es).position < NUM_LEDS
    ensures Bounce.Inv(ScanOf(Run(Initial(port), es)))
    ensures Leds.Count(Lit(Run(Initial(port), es).out)) <= 1
  {
    var r := Run(Initial(port), es);
    if Lit(r.out) == Leds.Dark() {
      Leds.DarkCount();
    } else {
      Leds.OneHotCount(r.position);
    }
  }

  /** While running, `k` ticks follow `k` steps of the reference scan and,
      after the first, light exactly the current position; the button state
      and the debounce clock are untouched. */
  lemma {:induction false} RunningTicks(s: State, k: nat)
    requires Inv(s) && s.running != 0
    ensures ScanOf(Ticks(s, k)) == Bounce.Iterate(ScanOf(s), k)
    ensures Ticks(s, k).running == s.running && Ticks(s, k).lastButton == s.lastButton
    ensures k > 0 ==> Lit(Ticks(s, k).out) == Leds.OneHot(Ticks(s, k).position)
  {
    if k > 0 {
      RunningTicks(s, k - 1);
    }
  }

  /** While stopped, any number of ticks changes nothing. */
  lemma {:induction false} StoppedTicks(s: State, k: nat)
    requires Inv(s) && s.running == 0
    ensures Ticks(s, k) == s
  {
    if k > 0 {
      StoppedTicks(s, k - 1);
    }
  }

  /** Ten running ticks bring the scan back to where it was. */
  lemma TickPeriod(s: State)
    requires Inv(s) && s.running != 0
    ensures ScanOf(Ticks(s, 10)) == ScanOf(s)
    ensures Lit(Ticks(s, 10).out) == Leds.OneHot(s.position)
  {
    RunningTicks(s, 10);
    Bounce.Period(ScanOf(s));
  }

  /** Start, any number of ticks, stop: the scan is back at position 0 moving
      up, the LEDs show LED 0 (the stop does not blank them), and the
      controller is stopped. */
  lemma StartTicksStop(s: State, t1: uint32, k: nat, t2: uint32)
    requires Inv(s) && s.running == 0
    requires Accepts(t1, s.lastButton) && Accepts(t2, t1)
    ensures Edge(Ticks(Edge(s, t1), k), t2).running == 0
    ensures ScanOf(Edge(Ticks(Edge(s, t1), k), t2)) == Bounce.Start
    ensures Lit(Edge(Ticks(Edge(s, t1), k), t2).out) == Leds.OneHot(0)
    ensures Edge(Ticks(Edge(s, t1), k), t2).lastButton == t2
  {
  }

  /** After an accepted edge, a second edge whose reading differs from the
      first by at most `DEBOUNCE` is dropped; one that differs by more is
      accepted as well. */
  lemma DebounceWindow(s: State, t1: uint32, t2: uint32)
    requires Accepts(t1, s.lastButton)
    ensures Sub32(t2, t1) <= DEBOUNCE ==> Edge(Edge(s, t1), t2) == Edge(s, t1)
    ensures Sub32(t2, t1) > DEBOUNCE ==> Edge(Edge(s, t1), t2).lastButton == t2
    ensures Sub32(t2, t1) > DEBOUNCE ==> (Edge(Edge(s, t1), t2).running == 0 <==> s.running == 0)
  {
  }

  /** After reset `last_button_time` is 0, so the first edge is dropped
      unless the counter reading is above 200. */
  lemma FirstEdge(port: bv32, t: uint32)
    ensures Edge(Initial(port), t) == Initial(port) <==> t <= DEBOUNCE
  {
  }

  /** The global variables of CODE5.0P.c and PORT A's output register, with
      the two interrupt handlers and `update_leds` as methods. */
  class Controller {
    var ledPosition: uint8
    var direction: int8
    var isRunning: uint8
    var lastButtonTime: uint32
    var out: bv32

    function Snapshot(): State
      reads this
    {
      State(ledPosition, direction, isRunning, lastButtonTime, out)
    }

    ghost predicate Valid()
      reads this
    {
      Inv(Snapshot())
    }

    constructor (port: bv32)
      ensures Snapshot() == Initial(port)
      ensures Valid()
    {
      ledPosition, direction, isRunning, lastButtonTime := 0, 1, 0, 0;
      out := port & !LED_MASK;
    }

    method UpdateLeds()
      requires ledPosition < NUM_LEDS
      modifies this`out
      ensures Snapshot() == Show(old(Snapshot()))
    {
      out := out & !LED_MASK;
      out := out | LedBit(ledPosition);
    }

    method TimerTick()
      requires Valid()
      modifies this
      ensures Valid()
      ensures Snapshot() == Tick(old(Snapshot()))
    {
      if isRunning != 0 {
        ledPosition := ToU8(ledPosition + direction);
        if ledPosition == 0 || ledPosition == NUM_LEDS - 1 {
          direction := ToS8(-(direction as int));
        }
        UpdateLeds();
      }
    }

    method ButtonEdge(currentTime: uint32)
      requires Valid()
      modifies this
      ensures Valid()
      ensures Snapshot() == Edge(old(Snapshot()), currentTime)
    {
      if Sub32(currentTime, lastButtonTime) > DEBOUNCE {
        lastButtonTime := currentTime;
        if isRunning == 0 {
          isRunning := 1;
        } else {
          isRunning := 0;
          ledPosition := 0;
          direction := 1;
          UpdateLeds();
        }
      }
    }
  }
}
