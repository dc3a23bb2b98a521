/** Noise generators (crates/dg-noise/src/lib.rs).

    The random number generator is an abstract stream of 64-bit draws: the
    n-th call of `next_u64` returns `stream(n)`. White noise keeps bits
    16..31 of one draw; red noise integrates white noise into a floating
    point accumulator, whose arithmetic (a square root, a leak factor and a
    `tanh` soft clip) is a function supplied at construction. */
module Noise {
  import opened Words

  /** `R: RngCore`, seen through `next_u64` only. */
  class Rng {
    const stream: nat -> U64
    var drawn: nat

    constructor (stream: nat -> U64)
      ensures this.stream == stream && drawn == 0
    {
      this.stream := stream;
      drawn := 0;
    }

    /** `RngCore::next_u64`: the next draw of the stream. */
    method NextU64() returns (x: U64)
      modifies this
      ensures x == stream(old(drawn)) && drawn == old(drawn) + 1
    {
      x := stream(drawn);
      drawn := drawn + 1;
    }
  }

  /** `(x >> 16) as u16`: the shift drops the low 16 bits and the cast keeps
      the next 16, so the sample is the middle field of the decomposition
      of `x` into bits 32..63, 16..31 and 0..15. */
  function WhiteSample(x: U64): (s: U16)
    ensures x == (x / TWO_32) * TWO_32 + s * TWO_16 + x % TWO_16
  {
    (x / TWO_16) % TWO_16
  }

  /** The middle field is unique: any split of `x` into a high part, a
      16-bit middle and a 16-bit low part has `WhiteSample(x)` as its
      middle. */
  lemma WhiteSampleIsBits16To31(x: U64, high: nat, middle: nat, low: nat)
    requires middle < TWO_16 && low < TWO_16
    requires x == high * TWO_32 + middle * TWO_16 + low
    ensures WhiteSample(x) == middle
  {
    var s := WhiteSample(x);
    var hs := x / TWO_32;
    // Both splits are base-2^16 expansions of x / 2^16.
    assert x / TWO_16 == hs * TWO_16 + s;
    assert x == (high * TWO_16 + middle) * TWO_16 + low;
    assert x / TWO_16 == high * TWO_16 + middle;
  }

  /** `WhiteNoiseGenerator`: the generator owns its RNG. */
  class WhiteNoise {
    const rng: Rng

    /** `WhiteNoiseGenerator::new`: wraps the RNG without drawing from it. */
    constructor (rng: Rng)
      ensures this.rng == rng && rng.drawn == old(rng.drawn)
    {
      this.rng := rng;
    }

    /** `WhiteNoiseGenerator::sample`: exactly one draw, bits 16..31 of it;
        nothing else changes. */
    method Sample() returns (s: U16)
      modifies rng
      ensures s == WhiteSample(rng.stream(old(rng.drawn)))
      ensures rng.drawn == old(rng.drawn) + 1
    {
      var x := rng.NextU64();
      s := WhiteSample(x);
    }
  }

  /** `(sample as f64 - 32768.0) / 32768.0`: a white sample as a signed value
      in [-1, 1). Every step is exact in double precision (a 16-bit integer,
      a subtraction of integers and a division by a power of two). */
  function Signed(s: U16): (w: real)
    ensures -1.0 <= w < 1.0
    ensures w < 0.0 <==> s < 0x8000
  {
    (s as real - 32768.0) / 32768.0
  }

  /** The conversion loses nothing: the sample is recovered from it. */
  lemma SignedInjective(s1: U16, s2: U16)
    ensures Signed(s1) == Signed(s2) ==> s1 == s2
    ensures s1 < s2 ==> Signed(s1) < Signed(s2)
  {
  }

  /** `output.clamp(0.0, 65535.0) as u16`: clamp into the 16-bit range, then
      drop the fraction. */
  function Quantize(y: real): (q: U16)
    ensures 0.0 <= y <= 65535.0 ==> q as real <= y < q as real + 1.0
    ensures y < 0.0 ==> q == 0
    ensures y > 65535.0 ==> q == 0xFFFF
  {
    if y <= 0.0 then 0 else if y >= 65535.0 then 0xFFFF else y.Floor
  }

  /** Quantizing keeps the order of the shaped accumulator. */
  lemma QuantizeMonotone(y1: real, y2: real)
    requires y1 <= y2
    ensures Quantize(y1) <= Quantize(y2)
  {
    if 0.0 < y1 && y2 < 65535.0 {
      assert Quantize(y1) as real <= y1 <= y2 < Quantize(y2) as real + 1.0;
    }
  }

  /** `RedNoiseGenerator`. `step(acc, w, rate)` is the double-precision update
      of the accumulator by one signed white sample `w` (integration with a
      `1 / sqrt(rate)` scale, then the `1 - 1 / rate` leak), and `shape` the
      soft clip `tanh(acc) * 32767.0 + 32768.0`. */
  class RedNoise {
    const white: WhiteNoise
    const sampleRate: U64
    const step: (real, real, U64) -> real
    const shape: real -> real
    var accumulator: real

    /** `RedNoiseGenerator::new`: the accumulator starts at zero and the
        sample rate is stored once and for all. */
    constructor (white: WhiteNoise, sampleRate: U64, step: (real, real, U64) -> real, shape: real -> real)
      ensures this.white == white && this.sampleRate == sampleRate
      ensures this.step == step && this.shape == shape
      ensures accumulator == 0.0
      ensures white.rng.drawn == old(white.rng.drawn)
    {
      this.white, this.sampleRate := white, sampleRate;
      this.step, this.shape := step, shape;
      accumulator := 0.0;
    }

    /** `RedNoiseGenerator::sample`: exactly one white sample feeds one
        accumulator update, and the output is the clamped, truncated shape
        of the new accumulator. */
    method Sample() returns (s: U16)
      modifies this, white.rng
      ensures white.rng.drawn == old(white.rng.drawn) + 1
      ensures accumulator ==
        step(old(accumulator), Signed(WhiteSample(white.rng.stream(old(white.rng.drawn)))), sampleRate)
      ensures s == Quantize(shape(accumulator))
    {
      var w := white.Sample();
      accumulator := step(accumulator, Signed(w), sampleRate);
      s := Quantize(shape(accumulator));
    }
  }
}
