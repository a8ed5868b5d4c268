/** The bouncing scan shared by both variants: a position on the strip and a
    direction of travel. One step moves the position by the direction and
    reverses the direction when the new position is an end of the strip. */
module Bounce {
  import Leds

  const N: int := Leds.N

  datatype Scan = Scan(pos: int, dir: int)

  /** The state both variants start from: position 0, moving up. */
  const Start: Scan := Scan(0, 1)

  /** The scan invariant: the position is on the strip, the direction is a unit
      step, and at each end the direction points back into the strip. */
  predicate Inv(s: Scan) {
    && 0 <= s.pos < N
    && (s.dir == 1 || s.dir == -1)
    && (s.pos == 0 ==> s.dir == 1)
    && (s.pos == N - 1 ==> s.dir == -1)
  }

  /** One step: move, then reflect when the new position is 0 or N-1. */
  function Step(s: Scan): Scan {
    var p := s.pos + s.dir;
    Scan(p, if p == 0 || p == N - 1 then -s.dir else s.dir)
  }

  /** A step keeps the invariant, moves to a neighbouring position, and
      reverses the direction exactly when it lands on an end. */
  lemma StepInv(s: Scan)
    requires Inv(s)
    ensures Inv(Step(s))
    ensures Step(s).pos == s.pos + 1 || Step(s).pos == s.pos - 1
    ensures Step(s).dir == -s.dir <==> (Step(s).pos == 0 || Step(s).pos == N - 1)
  {
  }

  /** `k` steps. */
  function Iterate(s: Scan, k: nat): Scan {
    if k == 0 then s else Step(Iterate(s, k - 1))
  }

  /** The positions visited by `k` steps, in order. */
  function Trace(s: Scan, k: nat): (t: seq<int>)
    ensures |t| == k
  {
    if k == 0 then [] else Trace(s, k - 1) + [Iterate(s, k).pos]
  }

  /** Closed form of the scan from `Start`: a triangle wave of period 10. */
  function PosAt(k: nat): (p: int)
    ensures 0 <= p < N
  {
    var m := k % 10;
    if m <= 5 then m else 10 - m
  }

  function DirAt(k: nat): (d: int)
    ensures d == 1 || d == -1
  {
    if k % 10 < 5 then 1 else -1
  }

  lemma {:induction false} IterateInv(s: Scan, k: nat)
    requires Inv(s)
    ensures Inv(Iterate(s, k))
  {
    if k > 0 {
      IterateInv(s, k - 1);
      StepInv(Iterate(s, k - 1));
    }
  }

  lemma {:induction false} IterateAdd(s: Scan, a: nat, b: nat)
    ensures Iterate(Iterate(s, a), b) == Iterate(s, a + b)
  {
    if b > 0 {
      IterateAdd(s, a, b - 1);
    }
  }

  /** After `k` steps from `Start` the scan is at `PosAt(k)` moving `DirAt(k)`. */
  lemma {:induction false} IterateFromStart(k: nat)
    ensures Iterate(Start, k) == Scan(PosAt(k), DirAt(k))
  {
    if k > 0 {
      IterateFromStart(k - 1);
      ModNext(k - 1);
      var m := (k - 1) % 10;
      var prev := Scan(PosAt(k - 1), DirAt(k - 1));
      if m < 4 {
        assert prev == Scan(m, 1) && k % 10 == m + 1;
      } else if m == 4 {
        assert prev == Scan(4, 1) && k % 10 == 5;
      } else if m < 9 {
        assert prev == Scan(10 - m, -1) && k % 10 == m + 1;
      } else {
        assert prev == Scan(1, -1) && k % 10 == 0;
      }
    }
  }

  lemma ModNext(k: nat)
    ensures (k + 1) % 10 == if k % 10 == 9 then 0 else k % 10 + 1
  {
  }

  /** The invariant describes exactly the states the scan reaches from `Start`:
      the ten states of one sweep up and back. */
  lemma Reachable(s: Scan)
    ensures Inv(s) <==> exists k: nat :: k < 10 && Iterate(Start, k) == s
  {
    if Inv(s) {
      var k: nat := if s.dir == 1 then s.pos else 10 - s.pos;
      IterateFromStart(k);
      assert Iterate(Start, k) == s;
    }
    forall k: nat | k < 10 && Iterate(Start, k) == s
      ensures Inv(s)
    {
      IterateFromStart(k);
    }
  }

  /** Every reachable scan state comes back to itself after ten steps, and no
      sooner for `Start`. */
  lemma Period(s: Scan)
    requires Inv(s)
    ensures Iterate(s, 10) == s
  {
    Reachable(s);
    var k: nat :| k < 10 && Iterate(Start, k) == s;
    IterateAdd(Start, k, 10);
    IterateFromStart(k);
    IterateFromStart(k + 10);
  }

  /** From `Start` the scan visits 1,2,3,4,5,4,3,2,1,0 and is back at `Start`. */
  lemma StartSweep()
    ensures Trace(Start, 10) == [1, 2, 3, 4, 5, 4, 3, 2, 1, 0]
    ensures Iterate(Start, 10) == Start
    ensures forall k :: 0 < k < 10 ==> Iterate(Start, k) != Start
  {
    forall k | 0 <= k <= 10 ensures Iterate(Start, k) == Scan(PosAt(k), DirAt(k)) {
      IterateFromStart(k);
    }
    assert Trace(Start, 5) == [1, 2, 3, 4, 5];
    assert Trace(Start, 10) == Trace(Start, 5) + [4, 3, 2, 1, 0];
  }
}
