/** The refresh rate of a DRM mode, in millihertz, from its pixel clock and totals. */
module Refresh {
  import opened Arithmetic
  import opened Prelude

  const I32 := 0x8000_0000

  datatype DrmMode = DrmMode(clock: u32, htotal: u16, vtotal: u16, interlace: bool, dblscan: bool, vscan: u16)

  /** `as i32`: the low 32 bits, as a signed number. */
  function AsI32(x: nat): int {
    var low := x % (2 * I32);
    if low < I32 then low else low - 2 * I32
  }

  /** The cast leaves 32 bits, and what it drops is a multiple of 2^32. */
  lemma AsI32IsLowBits(x: nat)
    ensures -I32 <= AsI32(x) < I32 && (x - AsI32(x)) % TWO_32 == 0
  {
  }

  /** What the flags multiply the refresh by, and divide it by. */
  function Factor(mode: DrmMode): nat {
    if mode.interlace then 2 else 1
  }

  function Divisor(mode: DrmMode): (d: nat)
    ensures d > 0
  {
    (if mode.dblscan then 2 else 1) * (if mode.vscan > 1 then mode.vscan else 1)
  }

  /**
   * Interlacing doubles the rate, double scanning halves it, and scanning each line several
   * times divides it by that number; a mode without flags keeps it.
   */
  lemma FlagsScaleRate(mode: DrmMode)
    ensures !mode.interlace && !mode.dblscan && mode.vscan <= 1 ==> Factor(mode) == 1 && Divisor(mode) == 1
    ensures mode.interlace ==>
      var off := mode.(interlace := false);
      Factor(mode) == 2 * Factor(off) && Divisor(mode) == Divisor(off)
    ensures mode.dblscan ==>
      var off := mode.(dblscan := false);
      Factor(mode) == Factor(off) && Divisor(mode) == 2 * Divisor(off)
    ensures mode.vscan > 1 ==>
      var off := mode.(vscan := 0);
      Factor(mode) == Factor(off) && Divisor(mode) == mode.vscan * Divisor(off)
  {
  }

  /** `y` is, up to the stated rounding, `clock * 10^6 / (h * v)`. */
  ghost predicate IsRounded(clock: nat, h: nat, v: nat, y: nat) {
    -(h * v + h) <= 2 * (y * (h * v) - clock * 1_000_000) <= h * v
  }

  /** The rate before the flags are applied. */
  function Rate(clock: nat, h: nat, v: nat): nat
    requires h > 0 && v > 0
  {
    Div(Div(clock * 1_000_000, h) + v / 2, v)
  }

  lemma DivBounds(a: nat, n: nat)
    requires n > 0
    ensures 0 <= a - a / n * n < n
  {
  }

  /** What exactly the rate is: the clock divided rounding down, then rounding to nearest, ties up. */
  lemma RateIsExact(clock: nat, h: nat, v: nat) returns (q: nat)
    requires h > 0 && v > 0
    ensures q * h <= clock * 1_000_000 < (q + 1) * h
    ensures Rate(clock, h, v) * v <= q + v / 2 < (Rate(clock, h, v) + 1) * v
  {
    q := Div(clock * 1_000_000, h);
    DivBounds(clock * 1_000_000, h);
    DivBounds(q + v / 2, v);
  }

  /** The two integer divisions, the second one rounding to nearest, stay within half a step. */
  lemma TwoStageRounding(clock: nat, h: nat, v: nat)
    requires h > 0 && v > 0
    ensures IsRounded(clock, h, v, Rate(clock, h, v))
  {
    var c := clock * 1_000_000;
    var q := c / h;
    var half := v / 2;
    var y := (q + half) / v;
    DivBounds(c, h);
    DivBounds(q + half, v);
    var r := c - q * h;
    var s := q + half - y * v;
    assert half - s == y * v - q;
    Scale(h, y * v, q, half - s);
    assert y * (h * v) == h * (y * v);
    assert 2 * (y * (h * v) - c) == 2 * (h * (half - s)) - 2 * r;
    Bounds(h, half - s, v);
  }

  lemma Scale(h: int, a: int, b: int, d: int)
    requires d == a - b
    ensures h * d == h * a - h * b
  {
  }

  lemma Bounds(h: nat, d: int, v: nat)
    requires h > 0 && 2 * d <= v && 2 * d >= 1 - v
    ensures h - h * v <= 2 * (h * d) <= h * v
  {
    assert h * (2 * d) <= h * v;
    assert h * (2 * d) >= h * (1 - v);
    assert h * (1 - v) == h - h * v;
  }

  /**
   * `Mode::from`, its refresh only; `None` is a division by zero. Apart from the flags the
   * result is the rate rounded to nearest, and the flags scale it with one rounding down.
   */
  method FromDrmMode(mode: DrmMode) returns (r: Option<int>)
    ensures r.None? <==> mode.htotal == 0 || mode.vtotal == 0
    ensures r.Some? ==>
      var y := Rate(mode.clock, mode.htotal, mode.vtotal);
      && IsRounded(mode.clock, mode.htotal, mode.vtotal, y)
      && r.value == AsI32(Div(y * Factor(mode), Divisor(mode)))
  {
    if mode.htotal == 0 || mode.vtotal == 0 {
      return None;
    }
    hide IsRounded, Rate, Div, Factor, Divisor, AsI32;
    TwoStageRounding(mode.clock, mode.htotal, mode.vtotal);
    NoOverflow(mode.clock, mode.htotal, mode.vtotal);
    var refresh := Rate(mode.clock, mode.htotal, mode.vtotal);
    var scaled := ApplyFlags(mode, refresh);
    return Some(AsI32(scaled));
  }

  /** The flags of a mode, one after the other. */
  method ApplyFlags(mode: DrmMode, y: nat) returns (refresh: nat)
    requires y * 2 < TWO_64
    ensures refresh == Div(y * Factor(mode), Divisor(mode)) && refresh < TWO_64
  {
    refresh := y;
    if mode.interlace {
      refresh := refresh * 2;
    }
    ghost var scaled := refresh;
    ghost var two := if mode.dblscan then 2 else 1;
    ghost var scans := if mode.vscan > 1 then mode.vscan else 1;
    DivTwice(scaled, two, scans);
    if mode.dblscan {
      refresh := refresh / 2;
    }
    assert refresh == Div(scaled, two);
    DivShrinks(refresh, scans);
    if mode.vscan > 1 {
      refresh := refresh / mode.vscan;
    }
  }

  /** No intermediate value leaves 64 bits, not even after doubling. */
  lemma NoOverflow(clock: u32, h: u16, v: u16)
    requires h > 0 && v > 0
    ensures clock * 1_000_000 < TWO_64
    ensures Div(clock * 1_000_000, h) + v / 2 < TWO_64
    ensures Rate(clock, h, v) * 2 < TWO_64
  {
    DivShrinks(clock * 1_000_000, h);
    DivShrinks(Div(clock * 1_000_000, h) + v / 2, v);
  }

  /** The final cast keeps the value exactly below 2^31 (2.1 MHz in millihertz). */
  lemma CastKeepsExactly(x: nat)
    requires x < TWO_64
    ensures AsI32(x) == x <==> x < I32
  {
  }
}
