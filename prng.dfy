/**
 * The deterministic scatter generator `randomBetween(seed, min, max)` of
 * src/utils/prng.ts. Its floating-point body (a `Math.sin` hash) is not part of
 * this model: a call is recorded by its arguments, so the model can say which
 * seed and which range every decorative value is drawn from.
 */
module Prng {

  /** The value `randomBetween(seed, lo, hi)`; equal draws give equal values. */
  datatype Draw = Between(seed: int, lo: real, hi: real)

  /** The seeds of a sequence of draws. */
  function Seeds(ds: seq<Draw>): (r: set<int>)
    ensures forall i :: 0 <= i < |ds| ==> ds[i].seed in r
    ensures forall s :: s in r ==> exists i :: 0 <= i < |ds| && ds[i].seed == s
  {
    set i | 0 <= i < |ds| :: ds[i].seed
  }
}
