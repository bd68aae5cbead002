/**
 * A seeded pseudo-random generator standing in for java.util.Random: the model only
 * relies on each draw of nextInt(bound) lying in [0, bound).
 */
module Rng {

  /** The generator's 48-bit state. */
  datatype Random = Random(seed: nat)

  const MULTIPLIER: nat := 0x5_DEEC_E66D
  const INCREMENT: nat := 0xB
  const MODULUS: nat := 0x1_0000_0000_0000

  /** The next state of the linear congruential generator. */
  function Advance(r: Random): (n: Random)
    ensures n.seed < MODULUS
  {
    Random((r.seed * MULTIPLIER + INCREMENT) % MODULUS)
  }

  /** nextInt(bound): a draw in [0, bound) and the advanced generator. */
  function NextInt(r: Random, bound: int): (res: (int, Random))
    requires bound > 0
    ensures 0 <= res.0 < bound
  {
    var n := Advance(r);
    ((n.seed / 0x2_0000) % bound, n)
  }

  /** All of `s` are draws of nextInt(bound) and there are `count` of them. */
  predicate Drawn(s: seq<int>, count: nat, bound: int)
  {
    |s| == count && forall i :: 0 <= i < |s| ==> 0 <= s[i] < bound
  }

  /** The generator after `n` draws, whatever their bounds. */
  function Skip(r: Random, n: nat): Random
    decreases n
  {
    if n == 0 then r else Skip(Advance(r), n - 1)
  }

  /** `count` successive draws of nextInt(bound): the i-th is the draw from the generator after i draws. */
  function NextInts(r: Random, count: nat, bound: int): (res: (seq<int>, Random))
    requires bound > 0
    ensures Drawn(res.0, count, bound)
    ensures forall i :: 0 <= i < count ==> res.0[i] == NextInt(Skip(r, i), bound).0
    ensures res.1 == Skip(r, count)
    decreases count
  {
    if count == 0 then ([], r)
    else
      var (first, r1) := NextInt(r, bound);
      var (rest, r2) := NextInts(r1, count - 1, bound);
      ([first] + rest, r2)
  }

  /** Random.nextInt(bound) as the simulation calls it: a draw in [0, bound) and the moved-on generator. */
  method Draw(r: Random, bound: int) returns (x: int, next: Random)
    requires bound > 0
    ensures 0 <= x < bound
    ensures (x, next) == NextInt(r, bound) && next == Skip(r, 1)
  {
    x, next := NextInt(r, bound).0, NextInt(r, bound).1;
  }
}
