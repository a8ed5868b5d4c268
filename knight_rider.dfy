/** The polled Arduino scanner of Task5_KnightRider.cpp. A button interrupt
    advances a mode counter behind a 200 ms debounce; the main loop calls
    `runKnightRider`, which in mode 1 shows one frame every 100 ms and steps
    the scan, and in mode 3 blanks the LEDs, rewinds the scan and falls back
    to mode 0. Modes 0 and 2 leave everything as it is, so mode 2 freezes the
    last frame. */
module KnightRider {
  import opened Fixed
  import Leds
  import Bounce

  const LED_COUNT: int := 6
  /** Milliseconds between two frames. */
  const INTERVAL: int := 100
  /** Minimum gap, in milliseconds, between two accepted presses. */
  const DEBOUNCE: int := 200

  /** The globals `state`, `ledIndex`, `direction` and `lastUpdate`, the
      static `lastPress` of `buttonISR`, and the level of each pin of
      `ledPins`, in the order of that table. */
  datatype Board = Board(
    state: uint8,
    index: int,
    direction: int,
    lastUpdate: uint32,
    lastPress: uint32,
    pins: seq<bool>)

  function ScanOf(b: Board): Bounce.Scan {
    Bounce.Scan(b.index, b.direction)
  }

  /** The reachable states: a mode in 0..3, the scan invariant (so that
      `ledPins[ledIndex]` is in bounds), and at most one LED lit. */
  predicate Inv(b: Board) {
    && b.state <= 3
    && Bounce.Inv(ScanOf(b))
    && |b.pins| == LED_COUNT
    && Leds.Count(b.pins) <= 1
  }

  /** The initial values of the globals, with every LED pin driven LOW as
      `initLEDs` leaves them. */
  function Initial(): (b: Board)
    ensures Inv(b)
    ensures b.state == 0 && ScanOf(b) == Bounce.Start && b.pins == Leds.Dark()
    ensures b.lastUpdate == 0 && b.lastPress == 0
  {
    Leds.DarkCount();
    Board(0, 0, 1, 0, 0, Leds.Dark())
  }

  /** `state++` on a `uint8_t`, then `if (state > 3) state = 1`. */
  function NextMode(m: uint8): (r: uint8)
    ensures r <= 3
    ensures m <= 3 ==> 1 <= r
    ensures m < 3 ==> r == m + 1
    ensures m == 3 ==> r == 1
  {
    var n := ToU8(m + 1);
    if n > 3 then 1 else n
  }

  /** After the first accepted press the modes repeat with period three:
      0 -> 1 -> 2 -> 3 -> 1 -> ... */
  lemma ModeCycle(m: uint8)
    requires m <= 3
    ensures NextMode(NextMode(NextMode(NextMode(m)))) == NextMode(m)
  {
  }

  /** The debounce gate of `buttonISR`: more than `DEBOUNCE` ms since the last
      accepted press, counted modulo 2^32. */
  predicate Accepts(now: uint32, last: uint32) {
    Sub32(now, last) > DEBOUNCE
  }

  /** `buttonISR`, `now` being the value `millis()` returns. */
  function Press(b: Board, now: uint32): (r: Board)
    ensures Inv(b) ==> Inv(r)
    ensures !Accepts(now, b.lastPress) ==> r == b
    ensures Accepts(now, b.lastPress) ==>
              && r.state == NextMode(b.state)
              && r.lastPress == now
              && r.(state := b.state, lastPress := b.lastPress) == b
  {
    if Accepts(now, b.lastPress) then b.(state := NextMode(b.state), lastPress := now)
    else b
  }

  /** `runKnightRider`, `now` being the value `millis()` returns. */
  function Update(b: Board, now: uint32): (r: Board)
    requires Inv(b)
    ensures Inv(r)
    ensures b.state == 1 && Sub32(now, b.lastUpdate) >= INTERVAL ==>
              && r.pins == Leds.OneHot(b.index)
              && ScanOf(r) == Bounce.Step(ScanOf(b))
              && r.lastUpdate == now
              && r.state == b.state && r.lastPress == b.lastPress
    ensures b.state == 3 ==>
              && r.pins == Leds.Dark()
              && ScanOf(r) == Bounce.Start
              && r.state == 0
              && r.lastUpdate == b.lastUpdate && r.lastPress == b.lastPress
    ensures b.state == 0 || b.state == 2 ==> r == b
    ensures b.state == 1 && Sub32(now, b.lastUpdate) < INTERVAL ==> r == b
  {
    if b.state == 1 && Sub32(now, b.lastUpdate) >= INTERVAL then
      Leds.OneHotCount(b.index);
      Bounce.StepInv(ScanOf(b));
      var s := Bounce.Step(ScanOf(b));
      b.(lastUpdate := now, pins := Leds.OneHot(b.index), index := s.pos, direction := s.dir)
    else if b.state == 3 then
      Leds.DarkCount();
      b.(pins := Leds.Dark(), index := 0, direction := 1, state := 0)
    else
      b
  }

  /** The events the sketch reacts to: a falling edge on the button pin and
      one pass of the main loop, each with the `millis()` value it reads. */
  datatype Event = Fall(now: uint32) | Pass(now: uint32)

  function Apply(b: Board, e: Event): (r: Board)
    requires Inv(b)
    ensures Inv(r)
  {
    match e
    case Fall(now) => Press(b, now)
    case Pass(now) => Update(b, now)
  }

  /** The state after the events `es`, in order. */
  function Run(b: Board, es: seq<Event>): (r: Board)
    requires Inv(b)
    ensures Inv(r)
    decreases |es|
  {
    if es == [] then b else Run(Apply(b, es[0]), es[1..])
  }

  /** Whatever the interleaving of presses and loop passes after start-up,
      the mode stays in 0..3, `ledIndex` on the strip (so the pin table is
      never indexed out of bounds), and at most one LED is lit. */
  lemma AlwaysInRange(es: seq<Event>)
    ensures Run(Initial(), es).state <= 3
    ensures 0 <= Run(Initial(), es).index < LED_COUNT
    ensures Bounce.Inv(ScanOf(Run(Initial(), es)))
    ensures Leds.Count(Run(Initial(), es).pins) <= 1
  {
  }

  /** Each time is at least `INTERVAL` after the one before, the first after `last`. */
  predicate Timely(last: uint32, times: seq<uint32>) {
    && (times != [] ==> Sub32(times[0], last) >= INTERVAL)
    && (forall j :: 0 < j < |times| ==> Sub32(times[j], times[j - 1]) >= INTERVAL)
  }

  lemma TimelyPrefix(last: uint32, times: seq<uint32>, n: nat)
    requires Timely(last, times) && n <= |times|
    ensures Timely(last, times[..n])
  {
  }

  /** Loop passes at the given times, in order. */
  function Updates(b: Board, times: seq<uint32>): (r: Board)
    requires Inv(b)
    ensures Inv(r)
  {
    if times == [] then b else Update(Updates(b, times[..|times| - 1]), times[|times| - 1])
  }

  /** In mode 1 with passes far enough apart, every pass shows a frame: the
      scan follows the reference step, and the frame shows the index from
      before the last step. */
  lemma {:induction false} RunningUpdates(b: Board, times: seq<uint32>)
    requires Inv(b) && b.state == 1 && Timely(b.lastUpdate, times)
    ensures ScanOf(Updates(b, times)) == Bounce.Iterate(ScanOf(b), |times|)
    ensures Updates(b, times).state == 1
    ensures Updates(b, times).lastUpdate == if times == [] then b.lastUpdate else times[|times| - 1]
    ensures times != [] ==>
              Updates(b, times).pins == Leds.OneHot(Bounce.Iterate(ScanOf(b), |times| - 1).pos)
  {
    if times != [] {
      var front := times[..|times| - 1];
      TimelyPrefix(b.lastUpdate, times, |times| - 1);
      RunningUpdates(b, front);
      assert Sub32(times[|times| - 1], Updates(b, front).lastUpdate) >= INTERVAL;
    }
  }

  /** From the start position in mode 1, the frames show LEDs
      0,1,2,3,4,5,4,3,2,1 and then repeat: pass `j` lights LED `PosAt(j)`. */
  lemma SweepFromStart(b: Board, times: seq<uint32>)
    requires Inv(b) && b.state == 1 && ScanOf(b) == Bounce.Start
    requires Timely(b.lastUpdate, times)
    ensures ScanOf(Updates(b, times)) == Bounce.Scan(Bounce.PosAt(|times|), Bounce.DirAt(|times|))
    ensures forall j :: 0 <= j < |times| ==>
              Updates(b, times[..j + 1]).pins == Leds.OneHot(Bounce.PosAt(j))
  {
    RunningUpdates(b, times);
    Bounce.IterateFromStart(|times|);
    forall j | 0 <= j < |times|
      ensures Updates(b, times[..j + 1]).pins == Leds.OneHot(Bounce.PosAt(j))
    {
      var front := times[..j + 1];
      TimelyPrefix(b.lastUpdate, times, j + 1);
      RunningUpdates(b, front);
      Bounce.IterateFromStart(j);
    }
  }

  /** Ten frames in mode 1 bring the scan back to where it was. */
  lemma UpdatePeriod(b: Board, times: seq<uint32>)
    requires Inv(b) && b.state == 1 && Timely(b.lastUpdate, times) && |times| == 10
    ensures ScanOf(Updates(b, times)) == ScanOf(b)
  {
    RunningUpdates(b, times);
    Bounce.Period(ScanOf(b));
  }

  /** Mode 3 is handled once: the pass after the reset finds mode 0 and
      changes nothing. */
  lemma ResetOnce(b: Board, t1: uint32, t2: uint32)
    requires Inv(b) && b.state == 3
    ensures Update(Update(b, t1), t2) == Update(b, t1)
  {
  }

  /** Pausing and resetting from a running scan (two accepted presses, the
      second more than 200 ms after the first, then a loop pass) blanks the
      LEDs and rewinds the scan, whatever it showed; the next accepted press
      runs it again from LED 0. */
  lemma PauseResetRestart(b: Board, p1: uint32, p2: uint32, t: uint32, p3: uint32)
    requires Inv(b) && b.state == 1
    requires Accepts(p1, b.lastPress) && Accepts(p2, p1) && Accepts(p3, p2)
    ensures Update(Press(Press(b, p1), p2), t).state == 0
    ensures Update(Press(Press(b, p1), p2), t).pins == Leds.Dark()
    ensures ScanOf(Update(Press(Press(b, p1), p2), t)) == Bounce.Start
    ensures Press(Update(Press(Press(b, p1), p2), t), p3).state == 1
  {
  }

  /** Two presses closer than the window: the second is dropped. Further
      apart: both are accepted. */
  lemma DebounceWindow(b: Board, t1: uint32, t2: uint32)
    requires Accepts(t1, b.lastPress)
    ensures Sub32(t2, t1) <= DEBOUNCE ==> Press(Press(b, t1), t2) == Press(b, t1)
    ensures Sub32(t2, t1) > DEBOUNCE ==>
              Press(Press(b, t1), t2).state == NextMode(NextMode(b.state))
  {
  }

  /** `lastPress` starts at 0, so a press in the first 200 ms is dropped. */
  lemma FirstPress(now: uint32)
    ensures Press(Initial(), now) == Initial() <==> now <= DEBOUNCE
  {
  }

  /** The sketch's globals and the LED pins, with the button interrupt and
      the loop's `runKnightRider` as methods. */
  class Controller {
    var state: uint8
    var ledIndex: int
    var direction: int
    var lastUpdate: uint32
    var lastPress: uint32
    /** The level of `ledPins[i]`, `true` for HIGH. */
    const pins: array<bool>

    function Snapshot(): Board
      reads this, pins
    {
      Board(state, ledIndex, direction, lastUpdate, lastPress, pins[..])
    }

    ghost predicate Valid()
      reads this, pins
    {
      pins.Length == LED_COUNT && Inv(Snapshot())
    }

    constructor ()
      ensures Valid() && fresh(pins)
      ensures Snapshot() == Initial()
    {
      state, ledIndex, direction, lastUpdate, lastPress := 0, 0, 1, 0, 0;
      pins := new bool[LED_COUNT](i => false);
      new;
      assert pins[..] == Leds.Dark();
      Leds.DarkCount();
    }

    method ButtonIsr(now: uint32)
      requires Valid()
      modifies this
      ensures Valid()
      ensures Snapshot() == Press(old(Snapshot()), now)
    {
      if Sub32(now, lastPress) > DEBOUNCE {
        state := ToU8(state + 1);
        if state > 3 {
          state := 1;
        }
        lastPress := now;
      }
    }

    /** The loop that writes every LED pin LOW. */
    method AllLow()
      requires pins.Length == LED_COUNT
      modifies pins
      ensures pins[..] == Leds.Dark()
    {
      for i := 0 to LED_COUNT
        invariant forall j :: 0 <= j < i ==> !pins[j]
      {
        pins[i] := false;
      }
    }

    method RunKnightRider(now: uint32)
      requires Valid()
      modifies this, pins
      ensures Valid()
      ensures Snapshot() == Update(old(Snapshot()), now)
    {
      if state == 1 && Sub32(now, lastUpdate) >= INTERVAL {
        lastUpdate := now;
        AllLow();
        pins[ledIndex] := true;
        assert pins[..] == Leds.OneHot(ledIndex);
        Leds.OneHotCount(ledIndex);
        ledIndex := ledIndex + direction;
        if ledIndex == LED_COUNT - 1 || ledIndex == 0 {
          direction := -direction;
        }
      } else if state == 3 {
        AllLow();
        Leds.DarkCount();
        ledIndex := 0;
        direction := 1;
        state := 0;
      }
    }
  }
}
