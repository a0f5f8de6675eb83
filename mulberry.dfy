/** mulberry32, the seeded generator of src/data/pointsExpansion.js and its copy in
    scripts/generate-seed-points.mjs. The state is one 32-bit word; every call advances it by an odd
    constant and tempers the new state into the output. All arithmetic wraps at 32 bits, so the
    model uses `bv32` throughout: `Math.imul` is `bv32` multiplication, `>>>` is a logical shift,
    and `| 0` and `>>> 0` only change how JavaScript reads the same 32 bits. */
module Mulberry {

  const MULBERRY_INCREMENT: bv32 := 0x6d2b79f5

  /** `seed >>> 0` for an integral seed: the seed modulo 2^32. */
  function ToUint32(seed: int): bv32 {
    (seed % 0x1_0000_0000) as bv32
  }

  /** `a = (a + 0x6d2b79f5) | 0`. */
  function Advance(a: bv32): bv32 {
    a + MULBERRY_INCREMENT
  }

  /** The mixing applied to the already advanced state: two multiply-xor-shift rounds and a final
      xor-shift. */
  function Temper(a: bv32): bv32 {
    var t := (a ^ (a >> 15)) * (1 | a);
    var t' := (t + (t ^ (t >> 7)) * (61 | t)) ^ t;
    t' ^ (t' >> 14)
  }

  /** The state after `k` calls. */
  function StateAfter(seed: bv32, k: nat): bv32 {
    if k == 0 then seed else Advance(StateAfter(seed, k - 1))
  }

  /** `k` reduced modulo 2^32, built by counting in 32-bit arithmetic. */
  function Wrap32(k: nat): bv32 {
    if k == 0 then 0 else Wrap32(k - 1) + 1
  }

  /** `seed + c * 0x6d2b79f5`, modulo 2^32. */
  function Offset(seed: bv32, c: bv32): bv32 {
    seed + c * MULBERRY_INCREMENT
  }

  lemma AdvanceIsOneMoreIncrement(seed: bv32, c: bv32)
    ensures Advance(Offset(seed, c)) == Offset(seed, c + 1)
  {
  }

  /** After k calls the state is `seed + k * 0x6d2b79f5` modulo 2^32. */
  lemma {:induction false} StateAfterClosedForm(seed: bv32, k: nat)
    ensures StateAfter(seed, k) == Offset(seed, Wrap32(k))
  {
    if k > 0 {
      StateAfterClosedForm(seed, k - 1);
      AdvanceIsOneMoreIncrement(seed, Wrap32(k - 1));
    }
  }

  /** The numerator N of the k-th output (counting from 0) of a generator seeded with `seed`; the
      output itself is N / 2^32. Output k of a generator is output k - 1 of one started a step
      later. */
  function Draw(seed: bv32, k: nat): bv32
    decreases k
  {
    if k == 0 then Temper(Advance(seed)) else Draw(Advance(seed), k - 1)
  }

  lemma {:induction false} StateAfterShift(seed: bv32, k: nat)
    ensures StateAfter(Advance(seed), k) == StateAfter(seed, k + 1)
  {
    if k > 0 {
      StateAfterShift(seed, k - 1);
    }
  }

  /** Output k is the tempered state after k + 1 advances. */
  lemma {:induction false} DrawIsTemperedState(seed: bv32, k: nat)
    ensures Draw(seed, k) == Temper(StateAfter(seed, k + 1))
    decreases k
  {
    if k > 0 {
      DrawIsTemperedState(Advance(seed), k - 1);
      StateAfterShift(seed, k);
    }
  }

  /** `N / 4294967296`: the numerator read as a real in [0, 1). */
  function Unit(n: bv32): (r: real)
    ensures 0.0 <= r < 1.0
  {
    (n as int) as real / 4294967296.0
  }

  /** The closure `mulberry32(seed)` returns, with its captured state `a` as a field. `seed` and
      `calls` are the ghost record of where the stream started and how far it has been read. */
  class Mulberry32 {
    var a: bv32
    ghost const seed: bv32
    ghost var calls: nat

    ghost predicate Valid()
      reads this
    {
      a == StateAfter(seed, calls)
    }

    constructor (initialSeed: int)
      ensures Valid() && seed == ToUint32(initialSeed) && calls == 0
    {
      a := ToUint32(initialSeed);
      seed := ToUint32(initialSeed);
      calls := 0;
    }

    /** One call of the generator: returns the numerator of the next output. */
    method Next() returns (n: bv32)
      requires Valid()
      modifies this
      ensures Valid() && calls == old(calls) + 1
      ensures n == Draw(seed, old(calls))
    {
      DrawIsTemperedState(seed, calls);
      a := Advance(a);
      calls := calls + 1;
      n := Temper(a);
    }
  }
}
