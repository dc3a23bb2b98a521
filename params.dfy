/** ADC-backed parameters (crates/daisy-garden/src/params.rs).

    A parameter turns one raw 16-bit ADC sample into a value in a range the
    caller chose at construction. The patch.Init potentiometers are wired
    inverted and only span half the ADC range, so the raw sample is first
    corrected to `(32768 - raw) << 1` and then split into `max - min + 1`
    equal buckets of the 0..2^16 scale. The ADC read itself is the `raw`
    argument of every function here. */
module Params {
  import opened Words

  /** Why a constructor's `assert!` panics. */
  datatype PanicReason = MinAboveMax | NonPositiveLogMin

  /** What a constructor returns: the parameter, or the panic it raises. */
  datatype Construction<T> = Built(param: T) | Panicked(reason: PanicReason)

  // ---------------------------------------------------------------------------
  // Integer parameter

  /** `AdcIntParameter` without its ADC handle and pin: its two bounds. */
  datatype IntParam = IntParam(min: I32, max: I32) {
    /** What `AdcIntParameter::new` guarantees of every parameter it builds. */
    predicate Valid() { min <= max }
  }

  /** `AdcIntParameter::new`: panics unless `min <= max`; equal bounds are
      accepted although the panic message says "less than". */
  function NewIntParam(min: I32, max: I32): (r: Construction<IntParam>)
    ensures r.Built? <==> min <= max
    ensures r.Built? ==> r.param.Valid() && r.param.min == min && r.param.max == max
    ensures r.Panicked? ==> r.reason == MinAboveMax
  {
    if min <= max then Built(IntParam(min, max)) else Panicked(MinAboveMax)
  }

  /** The pot correction `(32768 - raw) << 1`, computed in i64 where the left
      shift of a negative value is a doubling. */
  function Corrected(raw: U16): (c: int)
    ensures c % 2 == 0 && -65534 <= c <= TWO_16
    ensures c >= 0 <==> raw <= 0x8000
    ensures c == 0 <==> raw == 0x8000
    ensures c == TWO_16 <==> raw == 0
  {
    (0x8000 - raw) * 2
  }

  /** Number of buckets, `max - min + 1` in i64. */
  function Buckets(p: IntParam): (n: int)
    requires p.Valid()
    ensures 1 <= n <= TWO_32
  {
    p.max - p.min + 1
  }

  /** The i64 value `res = min + range * value / 65536`, before `as i32`:
      `min` plus the product divided by 2^16, rounded toward zero. */
  function Map64(p: IntParam, raw: U16): (r: int)
    requires p.Valid()
    ensures Buckets(p) * Corrected(raw) >= 0 ==>
      0 <= Buckets(p) * Corrected(raw) - (r - p.min) * TWO_16 < TWO_16
    ensures Buckets(p) * Corrected(raw) <= 0 ==>
      -TWO_16 < Buckets(p) * Corrected(raw) - (r - p.min) * TWO_16 <= 0
  {
    p.min + TruncDiv(Buckets(p) * Corrected(raw), TWO_16)
  }

  /** `AdcIntParameter::get` for one ADC sample `raw`: the i64 result cast
      back to i32, which keeps its low 32 bits. */
  function Get(p: IntParam, raw: U16): (r: I32)
    requires p.Valid()
    ensures InI32(Map64(p, raw)) ==> r == Map64(p, raw)
  {
    WrapI32(Map64(p, raw))
  }

  /** `x * c` is monotone in `c` for a non-negative `x`. */
  lemma MulMonotone(x: int, c1: int, c2: int)
    requires x >= 0 && c1 <= c2
    ensures x * c1 <= x * c2
  {
    var d := c2 - c1;
    assert x * d >= 0;
    assert x * c2 == x * c1 + x * d;
  }

  /** The bucket product `range * corrected` against its extreme values. */
  lemma ProductBounds(n: int, c: int)
    requires 1 <= n && -65534 <= c <= TWO_16
    ensures -n * 65534 <= n * c <= n * TWO_16
    ensures c >= 0 ==> n * c >= 0
    ensures c < 0 ==> n * c < 0
    ensures c < TWO_16 ==> n * c <= n * TWO_16 - n
  {
    MulMonotone(n, -65534, c);
    MulMonotone(n, c, TWO_16);
    if c >= 0 {
      MulMonotone(n, 0, c);
    } else {
      MulMonotone(n, c, -1);
    }
    if c < TWO_16 {
      MulMonotone(n, c, TWO_16 - 1);
    }
  }

  /** No intermediate value of `get` leaves the i64 range: the range is at
      most 2^32 and the corrected sample at most 2^16 in magnitude. */
  lemma MapNoOverflow(p: IntParam, raw: U16)
    requires p.Valid()
    ensures InI64(Buckets(p)) && InI64(Corrected(raw))
    ensures InI64(Buckets(p) * Corrected(raw))
    ensures p.min - Buckets(p) <= Map64(p, raw) <= p.max + 1
    ensures InI64(Map64(p, raw))
  {
    var n, c := Buckets(p), Corrected(raw);
    ProductBounds(n, c);
    MulMonotone(TWO_16, n, TWO_32);
    var q := TruncDiv(n * c, TWO_16);
    assert -n <= q <= n;
  }

  /** Every pot position short of the end stop, `raw` in [1, 32768] (corrected
      value in [0, 65534]), gives an i64 result that lies in [min, max]. */
  lemma MapInRange(p: IntParam, raw: U16)
    requires p.Valid() && 1 <= raw <= 0x8000
    ensures p.min <= Map64(p, raw) <= p.max
  {
    ProductBounds(Buckets(p), Corrected(raw));
  }

  /** The cast back to i32 is lossless there, so `get` itself is in range. */
  lemma GetInRange(p: IntParam, raw: U16)
    requires p.Valid() && 1 <= raw <= 0x8000
    ensures p.min <= Get(p, raw) <= p.max
    ensures Get(p, raw) == Map64(p, raw)
  {
    MapInRange(p, raw);
  }

  /** The centre reading `raw = 32768` (corrected 0) maps to exactly `min`. */
  lemma GetAtCentre(p: IntParam)
    requires p.Valid()
    ensures Get(p, 0x8000) == p.min
  {
  }

  /** The end stop `raw = 0` (corrected 65536) maps one past the range, to
      `max + 1`; when `max` is the largest i32 the cast wraps it to the
      smallest. */
  lemma GetAtEndStop(p: IntParam)
    requires p.Valid()
    ensures Map64(p, 0) == p.max + 1
    ensures Get(p, 0) == if p.max < TWO_31 - 1 then p.max + 1 else -TWO_31
  {
    var n := Buckets(p);
    var q := TruncDiv(n * TWO_16, TWO_16);
    ProductBounds(n, TWO_16);
    assert q == n;
  }

  /** Readings above 32768 give a negative corrected value. Rust's division
      truncates it toward zero, so the result stays within one range below
      `min`, and equals `min` whenever the product is smaller than 65536. */
  lemma MapAboveCentre(p: IntParam, raw: U16)
    requires p.Valid() && raw > 0x8000
    ensures 2 * p.min - p.max <= Map64(p, raw) <= p.min
    ensures -Buckets(p) * Corrected(raw) < TWO_16 ==> Map64(p, raw) == p.min
  {
    ProductBounds(Buckets(p), Corrected(raw));
  }

  /** Truncation is observable: with a one-bucket range at 0 and `raw =
      32769`, `get` returns 0, where Euclidean division would give -1. */
  lemma TruncationMatters()
    ensures Map64(IntParam(0, 0), 0x8001) == 0
    ensures Corrected(0x8001) / TWO_16 == -1
  {
  }

  /** Turning the pot toward a larger raw reading never raises the value:
      the map is non-increasing in `raw` over the whole 16-bit scale. */
  lemma MapMonotone(p: IntParam, raw1: U16, raw2: U16)
    requires p.Valid() && raw1 <= raw2
    ensures Map64(p, raw2) <= Map64(p, raw1)
  {
    var n := Buckets(p);
    MulMonotone(n, Corrected(raw2), Corrected(raw1));
    TruncDivMonotone(n * Corrected(raw2), n * Corrected(raw1), TWO_16);
  }

  /** The same holds of `get` wherever the i32 cast is lossless. */
  lemma GetMonotone(p: IntParam, raw1: U16, raw2: U16)
    requires p.Valid() && 1 <= raw1 <= raw2 <= 0x8000
    ensures Get(p, raw2) <= Get(p, raw1)
  {
    MapMonotone(p, raw1, raw2);
    MapInRange(p, raw1);
    MapInRange(p, raw2);
  }

  /** `get` as evidently intended: every pot position, end stop included,
      lands in [min, max]. It clamps the one out-of-range value of the end
      stop back to `max`. */
  function GetIntended(p: IntParam, raw: U16): (r: I32)
    requires p.Valid()
    ensures Map64(p, raw) <= p.max ==> r == Get(p, raw)
    ensures Map64(p, raw) > p.max ==> r == p.max
  {
    var res := Map64(p, raw);
    if res > p.max then p.max else WrapI32(res)
  }

  /** The correction changes nothing but the end stop: everywhere else the
      intended map is `get` as written. */
  lemma GetIntendedAgrees(p: IntParam, raw: U16)
    requires p.Valid() && 1 <= raw
    ensures GetIntended(p, raw) == Get(p, raw)
  {
    if raw <= 0x8000 {
      MapInRange(p, raw);
    } else {
      MapAboveCentre(p, raw);
    }
  }

  /** The intended map stays in [min, max] on the whole pot range [0, 32768]. */
  lemma GetIntendedInRange(p: IntParam, raw: U16)
    requires p.Valid() && raw <= 0x8000
    ensures p.min <= GetIntended(p, raw) <= p.max
  {
    if raw == 0 {
      GetAtEndStop(p);
    } else {
      GetInRange(p, raw);
      GetIntendedAgrees(p, raw);
    }
  }

  /** ... and is still non-increasing in `raw` there. */
  lemma GetIntendedMonotone(p: IntParam, raw1: U16, raw2: U16)
    requires p.Valid() && raw1 <= raw2 <= 0x8000
    ensures GetIntended(p, raw2) <= GetIntended(p, raw1)
  {
    GetIntendedInRange(p, raw1);
    if raw1 == 0 {
      GetIntendedInRange(p, raw2);
    } else {
      GetMonotone(p, raw1, raw2);
      GetIntendedAgrees(p, raw1);
      GetIntendedAgrees(p, raw2);
    }
  }

  // ---------------------------------------------------------------------------
  // Float parameter: construction only

  /** `AdcFloatParameter` without its ADC handle and pin. For a logarithmic
      parameter `lo` and `hi` hold the base-10 logarithms of the bounds. */
  datatype FloatParam = FloatParam(lo: real, hi: real, logScale: bool)

  /** `AdcFloatParameter::new`: panics unless `min <= max`, then, for a
      logarithmic scale, unless `min > 0`; a logarithmic parameter stores
      `log10` of both bounds (`log10` is the single-precision libm function,
      a parameter here). */
  function NewFloatParam(min: real, max: real, logScale: bool, log10: real -> real): (r: Construction<FloatParam>)
    ensures r.Built? <==> min <= max && (logScale ==> min > 0.0)
    ensures r.Panicked? ==> (r.reason == MinAboveMax <==> !(min <= max))
    ensures r.Built? && !logScale ==> r.param == FloatParam(min, max, false)
    ensures r.Built? && logScale ==> r.param == FloatParam(log10(min), log10(max), true)
  {
    if !(min <= max) then Panicked(MinAboveMax)
    else if logScale && !(min > 0.0) then Panicked(NonPositiveLogMin)
    else if logScale then Built(FloatParam(log10(min), log10(max), true))
    else Built(FloatParam(min, max, false))
  }
}
