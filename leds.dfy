/** The LED output vector shared by both variants: one boolean per LED,
    index 0 being the first LED of the strip, `true` meaning lit. */
module Leds {

  /** The number of LEDs: `NUM_LEDS` and `LED_COUNT` are both 6. */
  const N: nat := 6

  /** Exactly LED `p` lit. */
  function OneHot(p: nat): (r: seq<bool>)
    requires p < N
    ensures |r| == N
    ensures forall i :: 0 <= i < N ==> (r[i] <==> i == p)
  {
    seq(N, i => i == p)
  }

  /** Every LED dark. */
  function Dark(): (r: seq<bool>)
    ensures |r| == N
    ensures forall i :: 0 <= i < N ==> !r[i]
  {
    seq(N, i => false)
  }

  /** The number of lit LEDs (the popcount of the output). */
  function Count(s: seq<bool>): (c: nat)
    ensures c <= |s|
  {
    if s == [] then 0 else (if s[0] then 1 else 0) + Count(s[1..])
  }

  lemma {:induction false} CountNone(s: seq<bool>)
    requires forall i :: 0 <= i < |s| ==> !s[i]
    ensures Count(s) == 0
  {
    if s != [] {
      CountNone(s[1..]);
    }
  }

  lemma {:induction false} CountSingle(s: seq<bool>, p: nat)
    requires p < |s|
    requires forall i :: 0 <= i < |s| ==> (s[i] <==> i == p)
    ensures Count(s) == 1
  {
    if p == 0 {
      CountNone(s[1..]);
    } else {
      CountSingle(s[1..], p - 1);
    }
  }

  /** The output with exactly one LED lit has weight one. */
  lemma OneHotCount(p: nat)
    requires p < N
    ensures Count(OneHot(p)) == 1
  {
    CountSingle(OneHot(p), p);
  }

  /** The blank output has weight zero. */
  lemma DarkCount()
    ensures Count(Dark()) == 0
  {
  }
}
