/**
  The per-vertex colour gradient of the mesh generator.

  A vertex on ring position `i` of an `n`-segment ring gets the colour of the
  ramp at `progress = i / n`. The ramp is piecewise linear with its breakpoint at
  `progress = 0.5`: the lower half runs from the start colour to the middle colour,
  the upper half, driven by `reverseProgress = (progress - 0.5) * 2`, from the
  middle colour to the end colour. Alpha is always 1.

  Channels are modelled as exact reals; the 32-bit float storage of the colour
  buffer is an idealisation left out of the model.
*/
module ColorRamp {

  datatype Rgb = Rgb(r: real, g: real, b: real)

  datatype Rgba = Rgba(r: real, g: real, b: real, a: real)

  /** The three colours that define a ramp. */
  datatype Ramp = Ramp(start: Rgb, mid: Rgb, end: Rgb)

  function Lerp(x: real, y: real, t: real): real
  {
    x + (y - x) * t
  }

  function Mix(c0: Rgb, c1: Rgb, t: real): Rgb
  {
    Rgb(Lerp(c0.r, c1.r, t), Lerp(c0.g, c1.g, t), Lerp(c0.b, c1.b, t))
  }

  function Opaque(c: Rgb): Rgba
  {
    Rgba(c.r, c.g, c.b, 1.0)
  }

  /** Position `i / n` along the ring. */
  function Progress(i: nat, n: nat): real
    requires n >= 1
  {
    i as real / n as real
  }

  /** The branch taken for `progress <= 0.5`. */
  function LowerHalf(ramp: Ramp, progress: real): Rgb
  {
    Mix(ramp.start, ramp.mid, 2.0 * progress)
  }

  /** The branch taken for `progress > 0.5`. */
  function UpperHalf(ramp: Ramp, progress: real): Rgb
  {
    var reverseProgress := (progress - 0.5) * 2.0;
    Mix(ramp.mid, ramp.end, reverseProgress)
  }

  /** The colour of every vertex on ring position `i`. */
  function RampColor(ramp: Ramp, i: nat, n: nat): (c: Rgba)
    requires n >= 1
    ensures c.a == 1.0
  {
    var progress := Progress(i, n);
    Opaque(if progress <= 0.5 then LowerHalf(ramp, progress) else UpperHalf(ramp, progress))
  }

  predicate Between(x: real, lo: real, hi: real)
  {
    (lo <= x <= hi) || (hi <= x <= lo)
  }

  /** Every channel of `c` lies between the matching channels of `c0` and `c1`. */
  predicate RgbBetween(c: Rgb, c0: Rgb, c1: Rgb)
  {
    Between(c.r, c0.r, c1.r) && Between(c.g, c0.g, c1.g) && Between(c.b, c0.b, c1.b)
  }

  function Rgb3(c: Rgba): Rgb
  {
    Rgb(c.r, c.g, c.b)
  }

  // ---------------------------------------------------------------------
  // Properties of the ramp

  /** The floating-point test `progress <= 0.5` is the integer test `2 * i <= n`. */
  lemma ProgressBranch(i: nat, n: nat)
    requires n >= 1
    ensures Progress(i, n) <= 0.5 <==> 2 * i <= n
  {
    var p := Progress(i, n);
    assert p * n as real == i as real;
  }

  lemma MulNonneg(a: real, b: real)
    requires 0.0 <= a && 0.0 <= b
    ensures 0.0 <= a * b
  {
  }

  /** On the ring, `progress` runs from 0 to 1. */
  lemma ProgressInUnit(i: nat, n: nat)
    requires n >= 1 && i <= n
    ensures 0.0 <= Progress(i, n) <= 1.0
  {
    var x, y := i as real, n as real;
    var q := 1.0 / y;
    assert q * y == 1.0;
    assert 0.0 < q <= 1.0 by {
      if q <= 0.0 {
        MulNonneg(-q, y);
        assert false;
      }
      if q > 1.0 {
        MulNonneg(q - 1.0, y - 1.0);
        assert false;
      }
    }
    assert Progress(i, n) == x * q;
    MulNonneg(x, q);
    MulNonneg(y - x, q);
  }

  /** `Progress` is the real number `p` with `p * n == i`. */
  lemma ProgressScaled(i: nat, n: nat, p: real)
    requires n >= 1
    requires p * n as real == i as real
    ensures Progress(i, n) == p
  {
    var q := Progress(i, n);
    assert q * n as real == i as real;
    assert (q - p) * n as real == 0.0;
  }

  lemma LerpBetween(x: real, y: real, t: real)
    requires 0.0 <= t <= 1.0
    ensures Between(Lerp(x, y, t), x, y)
  {
    var d := y - x;
    assert d * t + d * (1.0 - t) == d;
    if x <= y {
      MulNonneg(d, t);
      MulNonneg(d, 1.0 - t);
    } else {
      MulNonneg(-d, t);
      MulNonneg(-d, 1.0 - t);
    }
  }

  lemma LerpReverse(x: real, y: real, t: real)
    ensures Lerp(y, x, 1.0 - t) == Lerp(x, y, t)
  {
  }

  /** Both halves meet in the middle colour at the breakpoint: the ramp is continuous. */
  lemma RampContinuous(ramp: Ramp)
    ensures LowerHalf(ramp, 0.5) == ramp.mid
    ensures UpperHalf(ramp, 0.5) == ramp.mid
  {
  }

  /** The ring's first row has the start colour, its middle row the middle colour, its last row the end colour. */
  lemma RampEndpoints(ramp: Ramp, n: nat)
    requires n >= 1
    ensures RampColor(ramp, 0, n) == Opaque(ramp.start)
    ensures RampColor(ramp, n, n) == Opaque(ramp.end)
    ensures n % 2 == 0 ==> RampColor(ramp, n / 2, n) == Opaque(ramp.mid)
  {
    ProgressBranch(0, n);
    ProgressBranch(n, n);
    ProgressScaled(n, n, 1.0);
    if n % 2 == 0 {
      ProgressBranch(n / 2, n);
      ProgressScaled(n / 2, n, 0.5);
    }
  }

  /**
    On the ring the colour stays within the segment it is interpolated on:
    between start and middle up to the breakpoint, between middle and end after it.
  */
  lemma RampBounded(ramp: Ramp, i: nat, n: nat)
    requires n >= 1 && i <= n
    ensures 2 * i <= n ==> RgbBetween(Rgb3(RampColor(ramp, i, n)), ramp.start, ramp.mid)
    ensures 2 * i > n ==> RgbBetween(Rgb3(RampColor(ramp, i, n)), ramp.mid, ramp.end)
  {
    ProgressBranch(i, n);
    var p := Progress(i, n);
    ProgressInUnit(i, n);
    var t := if p <= 0.5 then 2.0 * p else (p - 0.5) * 2.0;
    var c0 := if p <= 0.5 then ramp.start else ramp.mid;
    var c1 := if p <= 0.5 then ramp.mid else ramp.end;
    LerpBetween(c0.r, c1.r, t);
    LerpBetween(c0.g, c1.g, t);
    LerpBetween(c0.b, c1.b, t);
  }

  lemma RampMirrorBelow(ramp: Ramp, i: nat, n: nat)
    requires n >= 1 && ramp.start == ramp.end && 2 * i < n
    ensures RampColor(ramp, i, n) == RampColor(ramp, n - i, n)
  {
    ProgressBranch(i, n);
    ProgressBranch(n - i, n);
    var p := Progress(i, n);
    var p' := Progress(n - i, n);
    assert p * n as real == i as real;
    assert (1.0 - p) * n as real == (n - i) as real;
    ProgressScaled(n - i, n, 1.0 - p);
    assert (p' - 0.5) * 2.0 == 1.0 - 2.0 * p;
    LerpReverse(ramp.start.r, ramp.mid.r, 2.0 * p);
    LerpReverse(ramp.start.g, ramp.mid.g, 2.0 * p);
    LerpReverse(ramp.start.b, ramp.mid.b, 2.0 * p);
  }

  /** A ramp that ends where it starts colours ring `i` like ring `n - i`. */
  lemma RampSymmetric(ramp: Ramp, i: nat, n: nat)
    requires n >= 1 && i <= n && ramp.start == ramp.end
    ensures RampColor(ramp, i, n) == RampColor(ramp, n - i, n)
  {
    if 2 * i < n {
      RampMirrorBelow(ramp, i, n);
    } else if 2 * i > n {
      RampMirrorBelow(ramp, n - i, n);
    }
  }

  // ---------------------------------------------------------------------
  // The two gradients of the source

  /** The gradient of the flat torus, written as the source computes it. */
  function TorusColor(i: nat, n: nat): Rgba
    requires n >= 1
  {
    var progress := i as real / n as real;
    if progress <= 0.5 then
      Rgba(0.5 + progress, 0.9 * (1.0 - 2.0 * progress), 0.9 * (1.0 - 2.0 * progress), 1.0)
    else
      var reverseProgress := (progress - 0.5) * 2.0;
      Rgba(1.0 - 0.5 * reverseProgress, 0.0 + 0.9 * reverseProgress, 0.0 + 0.9 * reverseProgress, 1.0)
  }

  /** The gradient of the lofted torus, written as the source computes it. */
  function LoftColor(i: nat, n: nat): Rgba
    requires n >= 1
  {
    var progress := i as real / n as real;
    if progress <= 0.5 then
      Rgba(0.5 + progress, 0.5 + progress, 0.9 * (1.0 - 2.0 * progress), 1.0)
    else
      var reverseProgress := (progress - 0.5) * 2.0;
      Rgba(1.0 - 0.5 * reverseProgress, 1.0 - 0.5 * reverseProgress, 0.0 + 0.9 * reverseProgress, 1.0)
  }

  const TorusRamp := Ramp(Rgb(0.5, 0.9, 0.9), Rgb(1.0, 0.0, 0.0), Rgb(0.5, 0.9, 0.9))

  const LoftRamp := Ramp(Rgb(0.5, 0.5, 0.9), Rgb(1.0, 1.0, 0.0), Rgb(0.5, 0.5, 0.9))

  /** The flat torus gradient is the three-colour ramp cyan-grey -> red -> cyan-grey. */
  lemma TorusRampIsSourceGradient(i: nat, n: nat)
    requires n >= 1
    ensures RampColor(TorusRamp, i, n) == TorusColor(i, n)
  {
  }

  /** The lofted torus gradient is the three-colour ramp lavender -> yellow -> lavender. */
  lemma LoftRampIsSourceGradient(i: nat, n: nat)
    requires n >= 1
    ensures RampColor(LoftRamp, i, n) == LoftColor(i, n)
  {
  }

  /** What the flat torus gradient promises on a ring of `n` segments. */
  lemma TorusColorFacts(i: nat, n: nat)
    requires n >= 1 && i <= n
    ensures TorusColor(i, n).a == 1.0
    ensures TorusColor(0, n) == Rgba(0.5, 0.9, 0.9, 1.0)
    ensures TorusColor(n, n) == Rgba(0.5, 0.9, 0.9, 1.0)
    ensures 2 * i == n ==> TorusColor(i, n) == Rgba(1.0, 0.0, 0.0, 1.0)
    ensures 0.5 <= TorusColor(i, n).r <= 1.0
    ensures 0.0 <= TorusColor(i, n).g <= 0.9 && 0.0 <= TorusColor(i, n).b <= 0.9
    ensures TorusColor(i, n) == TorusColor(n - i, n)
  {
    TorusRampIsSourceGradient(i, n);
    TorusRampIsSourceGradient(0, n);
    TorusRampIsSourceGradient(n, n);
    TorusRampIsSourceGradient(n - i, n);
    RampEndpoints(TorusRamp, n);
    RampBounded(TorusRamp, i, n);
    RampSymmetric(TorusRamp, i, n);
  }

  /** What the lofted torus gradient promises on a ring of `n` segments. */
  lemma LoftColorFacts(i: nat, n: nat)
    requires n >= 1 && i <= n
    ensures LoftColor(i, n).a == 1.0
    ensures LoftColor(0, n) == Rgba(0.5, 0.5, 0.9, 1.0)
    ensures LoftColor(n, n) == Rgba(0.5, 0.5, 0.9, 1.0)
    ensures 2 * i == n ==> LoftColor(i, n) == Rgba(1.0, 1.0, 0.0, 1.0)
    ensures 0.5 <= LoftColor(i, n).r <= 1.0 && 0.5 <= LoftColor(i, n).g <= 1.0
    ensures 0.0 <= LoftColor(i, n).b <= 0.9
    ensures LoftColor(i, n) == LoftColor(n - i, n)
  {
    LoftRampIsSourceGradient(i, n);
    LoftRampIsSourceGradient(0, n);
    LoftRampIsSourceGradient(n, n);
    LoftRampIsSourceGradient(n - i, n);
    RampEndpoints(LoftRamp, n);
    RampBounded(LoftRamp, i, n);
    RampSymmetric(LoftRamp, i, n);
  }
}
