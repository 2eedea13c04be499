/**
 * Small shared vocabulary: an Option type, the integer and real clamps the
 * C sources use, C's rounding and truncating conversions, unsigned 64-bit
 * wrap-around, and the libacfutils coordinate/heading validity checks.
 */
module Common {

  datatype Option<+T> = None | Some(value: T)

  /** An operation's value, or the error the C code reports (an exception or a failure return). */
  datatype Result<+T, +E> = Ok(value: T) | Err(error: E)

  /** `clampi(x, min, max)`: an int clamp that tests the lower bound first. */
  function Clampi(x: int, lo: int, hi: int): (r: int)
    ensures lo <= hi ==> lo <= r <= hi
    ensures lo <= x <= hi ==> r == x
    ensures r != x ==> (x < lo && r == lo) || (lo <= x && x > hi && r == hi)
  {
    if x < lo then lo else if x > hi then hi else x
  }

  /** libacfutils `clamp` on doubles, modelled on reals. */
  function ClampReal(x: real, lo: real, hi: real): (r: real)
    requires lo <= hi
    ensures lo <= r <= hi
    ensures lo <= x <= hi ==> r == x
    ensures x < lo ==> r == lo
    ensures x > hi ==> r == hi
  {
    if x < lo then lo else if x > hi then hi else x
  }

  function MaxReal(a: real, b: real): (r: real)
    ensures r >= a && r >= b && (r == a || r == b)
  {
    if a > b then a else b
  }

  function MinInt(a: int, b: int): (r: int)
    ensures r <= a && r <= b && (r == a || r == b)
  {
    if a < b then a else b
  }

  /** C's conversion of a double to an integer type: truncation toward zero. */
  function Trunc(x: real): (r: int)
    ensures 0.0 <= x ==> r as real <= x < r as real + 1.0
    ensures x <= 0.0 ==> r as real - 1.0 < x <= r as real
  {
    if x >= 0.0 then x.Floor else -((-x).Floor)
  }

  /** C's `round`: to the nearest integer, halfway cases away from zero. */
  function Round(x: real): (r: int)
    ensures x - 0.5 <= r as real <= x + 0.5
    ensures 0.0 <= x ==> 0 <= r
  {
    if x >= 0.0 then (x + 0.5).Floor else -((-x + 0.5).Floor)
  }

  /** `round` never decreases when its argument grows. */
  lemma RoundMonotone(x: real, y: real)
    requires x <= y
    ensures Round(x) <= Round(y)
  {
    if x >= 0.0 {
      assert (x + 0.5).Floor <= (y + 0.5).Floor;
    } else if y >= 0.0 {
    } else {
      assert (-y + 0.5).Floor <= (-x + 0.5).Floor;
    }
  }

  /** A weighted average `x + (y - x) * w` (libacfutils `wavg`) of two values in [lo, hi] stays in [lo, hi]. */
  function Wavg(x: real, y: real, w: real): real
  {
    x + (y - x) * w
  }

  lemma WavgBetween(x: real, y: real, w: real, lo: real, hi: real)
    requires lo <= x <= hi && lo <= y <= hi && 0.0 <= w <= 1.0
    ensures lo <= Wavg(x, y, w) <= hi
  {
    var e := y - x;
    var d := e * w;
    assert Wavg(x, y, w) == x + d;
    if e >= 0.0 {
      MulBounds(e, w);
      assert lo <= x <= x + d <= x + e == y <= hi;
    } else {
      MulBoundsNeg(e, w);
      assert lo <= y == x + e <= x + d <= x <= hi;
    }
  }

  lemma MulBounds(d: real, w: real)
    requires d >= 0.0 && 0.0 <= w <= 1.0
    ensures 0.0 <= d * w <= d
  {
    assert d * (1.0 - w) >= 0.0;
    assert d * w == d - d * (1.0 - w);
  }

  lemma MulBoundsNeg(d: real, w: real)
    requires d <= 0.0 && 0.0 <= w <= 1.0
    ensures d <= d * w <= 0.0
  {
    MulBounds(-d, w);
    assert (-d) * w == -(d * w);
  }

  const U64: int := 0x1_0000_0000_0000_0000

  /** Reduction into `uint64_t`, as C performs it on every unsigned store. */
  function WrapU64(x: int): (r: nat)
    ensures r < U64
    ensures 0 <= x < U64 ==> r == x
    ensures (x - r) % U64 == 0
  {
    x % U64
  }

  const I32Min: int := -0x8000_0000
  const I32Max: int := 0x7fff_ffff

  /** Reduction into a two's-complement `int`, as a store of a wider value into an `int` performs it. */
  function WrapI32(x: int): (r: int)
    ensures I32Min <= r <= I32Max
    ensures I32Min <= x <= I32Max ==> r == x
    ensures (x - r) % 0x1_0000_0000 == 0
  {
    var m := x % 0x1_0000_0000;
    if m > I32Max then m - 0x1_0000_0000 else m
  }

  /** Values that differ by a multiple of 2^32 wrap to the same `int`. */
  lemma WrapI32Congruent(x: int, y: int)
    requires (x - y) % 0x1_0000_0000 == 0
    ensures WrapI32(x) == WrapI32(y)
  {
    var k := (x - y) / 0x1_0000_0000;
    assert x == y + k * 0x1_0000_0000;
    assert (y + k * 0x1_0000_0000) % 0x1_0000_0000 == y % 0x1_0000_0000;
  }

  /** Wrapping after every addition gives the wrapped total. */
  lemma WrapI32Add(a: int, b: int)
    ensures WrapI32(WrapI32(a) + b) == WrapI32(a + b)
  {
    var wa := WrapI32(a);
    assert (a + b) - (wa + b) == a - wa;
    WrapI32Congruent(a + b, wa + b);
  }

  /** libacfutils validity checks on geodetic coordinates (degrees, meters). */
  predicate IsValidLat(lat: real) { -90.0 <= lat <= 90.0 }
  predicate IsValidLon(lon: real) { -180.0 <= lon <= 180.0 }
  predicate IsValidElev(elev: real) { -2000.0 <= elev <= 30000.0 }
  predicate IsValidHdg(hdg: real) { 0.0 <= hdg <= 360.0 }
}
