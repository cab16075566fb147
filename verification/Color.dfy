/** Colour conversions (src/color.rs) over the exact reals: RGB to HSL and back, section 7 of CSS Color
    Module Level 4. */
module Colors {
  datatype Rgba = Rgba(r: real, g: real, b: real, a: real)

  datatype Hsla = Hsla(h: real, s: real, l: real, a: real)

  function Abs(x: real): real { if x < 0.0 then -x else x }

  function Max(x: real, y: real): real { if x < y then y else x }

  function Min(x: real, y: real): real { if y < x then y else x }

  function Clamp(x: real): real { if x < 0.0 then 0.0 else if x > 1.0 then 1.0 else x }

  // `x % m`: the remainder has the sign of x.
  function Rem(x: real, m: real): real
    requires m > 0.0
  {
    if x >= 0.0 then x - m * (x / m).Floor as real else -(-x - m * (-x / m).Floor as real)
  }

  // `x.rem_euclid(m)`: the remainder is never negative.
  function RemEuclid(x: real, m: real): real
    requires m > 0.0
  {
    if Rem(x, m) < 0.0 then Rem(x, m) + m else Rem(x, m)
  }

  // Where full chroma, the ramp between and none go, by sextant of the hue.
  function Corner(sector: int, cm: real, xm: real, m: real): (real, real, real) {
    if sector == 0 || sector == 6 then (cm, xm, m)
    else if sector == 1 then (xm, cm, m)
    else if sector == 2 then (m, cm, xm)
    else if sector == 3 then (m, xm, cm)
    else if sector == 4 then (xm, m, cm)
    else (cm, m, xm)
  }

  // The height of the ramp between two primaries.
  function Ramp(f: real): real {
    1.0 - Abs(Rem(f, 2.0) - 1.0)
  }

  function Chroma(s: real, l: real): real {
    (1.0 - Abs(2.0 * l - 1.0)) * s
  }

  // The components for a hue in sextants, a chroma and the least component.
  function Components(f: real, c: real, m: real): (real, real, real) {
    Corner(f.Floor, c + m, c * Ramp(f) + m, m)
  }

  function Clamped(rgb: (real, real, real), a: real): Rgba {
    Rgba(Clamp(rgb.0), Clamp(rgb.1), Clamp(rgb.2), a)
  }

  // The least component.
  function Base(c: real, l: real): real {
    l - c / 2.0
  }

  function ToRgba(color: Hsla): Rgba {
    var c := Chroma(color.s, color.l);
    Clamped(Components(color.h * 6.0, c, Base(c, color.l)), color.a)
  }

  function Saturation(l: real, delta: real): real {
    if l == 0.0 || l == 1.0 then 0.0
    else if l < 0.5 then delta / (2.0 * l)
    else delta / (2.0 - 2.0 * l)
  }

  // Six times the hue.
  function Sextant(r: real, g: real, b: real, max: real, delta: real): real {
    if delta == 0.0 then 0.0
    else if max == r then RemEuclid((g - b) / delta, 6.0)
    else if max == g then (b - r) / delta + 2.0
    else (r - g) / delta + 4.0
  }

  function ToHsla(color: Rgba): Hsla {
    var r, g, b := color.r, color.g, color.b;
    var max := Max(r, Max(g, b));
    var min := Min(r, Min(g, b));
    var delta := max - min;
    var l := (max + min) / 2.0;
    Hsla(Sextant(r, g, b, max, delta) / 6.0, Saturation(l, delta), l, color.a)
  }

  // ---------------------------------------------------------------------------------------
  // Scalar facts
  // ---------------------------------------------------------------------------------------

  lemma Quotient(x: real, d: real)
    requires d > 0.0
    ensures d * (x / d) == x
    ensures x / d >= 0.0 <==> x >= 0.0
    ensures x / d <= 1.0 <==> x <= d
    ensures x / d >= -1.0 <==> x >= -d
    ensures x / d >= 1.0 <==> x >= d
    ensures x / d <= -1.0 <==> x <= -d
  {
    var q := x / d;
    assert d * q == x;
    SignOfProduct(d, q);
    SignOfProduct(d, 1.0 - q);
    SignOfProduct(d, q + 1.0);
  }

  // The ramp as high as the quotient is far from zero has the height of the dividend.
  lemma Height(x: real, d: real, f: real)
    requires d > 0.0 && Ramp(f) == Abs(x / d)
    ensures d * Ramp(f) == Abs(x)
  {
    hide Ramp;
    Quotient(x, d);
    var q := x / d;
    if q >= 0.0 {
      assert d * q == x;
    } else {
      assert d * -q == -x;
    }
  }

  lemma SignOfProduct(d: real, q: real)
    requires d > 0.0
    ensures d * q > 0.0 <==> q > 0.0
    ensures d * q == 0.0 <==> q == 0.0
    ensures d * q < 0.0 <==> q < 0.0
  {
  }

  lemma CancelFactor(u: real, d: real)
    requires d > 0.0
    ensures (d * u) / d == u
  {
    assert d * u == u * d;
  }

  // Within one turn, `% 2.0` removes the even sextants.
  lemma RemTwo(f: real)
    requires 0.0 <= f < 6.0
    ensures Rem(f, 2.0) == (if f < 2.0 then f else if f < 4.0 then f - 2.0 else f - 4.0)
  {
    if f < 2.0 {
      assert (f / 2.0).Floor == 0;
    } else if f < 4.0 {
      assert (f / 2.0).Floor == 1;
    } else {
      assert (f / 2.0).Floor == 2;
    }
  }

  lemma RemSix(q: real)
    requires -1.0 <= q <= 1.0
    ensures RemEuclid(q, 6.0) == if q < 0.0 then q + 6.0 else q
  {
    if q >= 0.0 {
      assert (q / 6.0).Floor == 0;
    } else {
      assert (-q / 6.0).Floor == 0;
    }
  }

  lemma RampIs(f: real)
    requires 0.0 <= f < 6.0
    ensures Ramp(f) == (if f < 1.0 then f else if f < 2.0 then 2.0 - f else if f < 3.0 then f - 2.0
                        else if f < 4.0 then 4.0 - f else if f < 5.0 then f - 4.0 else 6.0 - f)
    ensures 0.0 <= Ramp(f) <= 1.0
  {
    RemTwo(f);
    hide Rem;
  }

  // Chroma from saturation: what one direction divides by, the other multiplies by.
  lemma ChromaIsDelta(l: real, delta: real)
    requires 0.0 <= l <= 1.0 && (l == 0.0 || l == 1.0 ==> delta == 0.0)
    ensures Chroma(Saturation(l, delta), l) == delta
  {
    if 0.0 < l < 0.5 {
      Quotient(delta, 2.0 * l);
    } else if 0.5 <= l < 1.0 {
      Quotient(delta, 2.0 - 2.0 * l);
    }
  }

  lemma SaturationOfChroma(l: real, s: real)
    requires 0.0 < l < 1.0
    ensures Saturation(l, Chroma(s, l)) == s
  {
    if l < 0.5 {
      CancelFactor(s, 2.0 * l);
    } else {
      CancelFactor(s, 2.0 - 2.0 * l);
    }
  }

  // ---------------------------------------------------------------------------------------
  // RGB to HSL to RGB
  // ---------------------------------------------------------------------------------------

  // The hue found for a colour leads back to its components.
  ghost predicate LeadsBack(f: real, r: real, g: real, b: real, min: real, delta: real) {
    0.0 <= f < 6.0 && Components(f, delta, min) == (r, g, b)
  }

  lemma ItLeadsBack(f: real, r: real, g: real, b: real, min: real, delta: real, x: real)
    requires 0.0 <= f < 6.0 && x == delta * Ramp(f)
    requires Corner(f.Floor, delta + min, x + min, min) == (r, g, b)
    ensures LeadsBack(f, r, g, b, min, delta)
  {
    hide Corner, Ramp;
  }

  lemma RedLeadsBack(r: real, g: real, b: real, d: real)
    requires g <= r && b <= r && d == r - Min(g, b) && d > 0.0
    ensures LeadsBack(RemEuclid((g - b) / d, 6.0), r, g, b, Min(g, b), d)
  {
    hide RemEuclid, Ramp, LeadsBack;
    Quotient(g - b, d);
    var q := (g - b) / d;
    RemSix(q);
    var f := RemEuclid(q, 6.0);
    RampIs(f);
    Height(g - b, d, f);
    RedCorner(r, g, b, d, q, f, d * Ramp(f));
    ItLeadsBack(f, r, g, b, Min(g, b), d, d * Ramp(f));
  }

  lemma RedCorner(r: real, g: real, b: real, d: real, q: real, f: real, x: real)
    requires g <= r && b <= r && d == r - Min(g, b) && d > 0.0 && x == Abs(g - b)
    requires -1.0 <= q <= 1.0 && (q >= 0.0 <==> g >= b) && (q == 1.0 <==> g - b == d)
    requires f == if q < 0.0 then q + 6.0 else q
    ensures Corner(f.Floor, d + Min(g, b), x + Min(g, b), Min(g, b)) == (r, g, b)
  {
    assert f.Floor == if q == 1.0 then 1 else if q >= 0.0 then 0 else 5;
  }

  lemma GreenLeadsBack(r: real, g: real, b: real, d: real)
    requires r < g && b <= g && d == g - Min(r, b) && d > 0.0
    ensures LeadsBack((b - r) / d + 2.0, r, g, b, Min(r, b), d)
  {
    hide Ramp, LeadsBack;
    Quotient(b - r, d);
    var q := (b - r) / d;
    var f := q + 2.0;
    RampIs(f);
    Height(b - r, d, f);
    GreenCorner(r, g, b, d, q, f, d * Ramp(f));
    ItLeadsBack(f, r, g, b, Min(r, b), d, d * Ramp(f));
  }

  lemma GreenCorner(r: real, g: real, b: real, d: real, q: real, f: real, x: real)
    requires f == q + 2.0
    requires r < g && b <= g && d == g - Min(r, b) && x == Abs(b - r)
    requires -1.0 < q <= 1.0 && (q >= 0.0 <==> b >= r) && (q == 1.0 <==> b - r == d)
    ensures Corner(f.Floor, d + Min(r, b), x + Min(r, b), Min(r, b)) == (r, g, b)
  {
    assert f.Floor == if q == 1.0 then 3 else if q >= 0.0 then 2 else 1;
  }

  lemma BlueLeadsBack(r: real, g: real, b: real, d: real)
    requires r < b && g < b && d == b - Min(r, g) && d > 0.0
    ensures LeadsBack((r - g) / d + 4.0, r, g, b, Min(r, g), d)
  {
    hide Ramp, LeadsBack;
    Quotient(r - g, d);
    var q := (r - g) / d;
    var f := q + 4.0;
    RampIs(f);
    Height(r - g, d, f);
    BlueCorner(r, g, b, d, q, f, d * Ramp(f));
    ItLeadsBack(f, r, g, b, Min(r, g), d, d * Ramp(f));
  }

  lemma BlueCorner(r: real, g: real, b: real, d: real, q: real, f: real, x: real)
    requires f == q + 4.0
    requires r < b && g < b && d == b - Min(r, g) && x == Abs(r - g)
    requires -1.0 < q < 1.0 && (q >= 0.0 <==> r >= g)
    ensures Corner(f.Floor, d + Min(r, g), x + Min(r, g), Min(r, g)) == (r, g, b)
  {
    assert f.Floor == if q >= 0.0 then 4 else 3;
  }

  // A hue, lightness and chroma that fit together come out as the components the hue leads to.
  lemma ToRgbaIs(color: Hsla, r: real, g: real, b: real, min: real, delta: real)
    requires LeadsBack(color.h * 6.0, r, g, b, min, delta)
    requires Chroma(color.s, color.l) == delta && Base(delta, color.l) == min
    requires 0.0 <= r <= 1.0 && 0.0 <= g <= 1.0 && 0.0 <= b <= 1.0
    ensures ToRgba(color) == Rgba(r, g, b, color.a)
  {
    hide Chroma, Components, Base;
  }

  /** A colour with components in [0, 1] survives the conversion to HSL and back. */
  lemma RgbRoundTrip(color: Rgba)
    requires 0.0 <= color.r <= 1.0 && 0.0 <= color.g <= 1.0 && 0.0 <= color.b <= 1.0
    ensures ToRgba(ToHsla(color)) == color
  {
    hide Saturation, Chroma, LeadsBack, Sextant, ToRgba, Max, Min;
    var r, g, b := color.r, color.g, color.b;
    var max, min := Max(r, Max(g, b)), Min(r, Min(g, b));
    var delta, l := max - min, (max + min) / 2.0;
    var f, s := Sextant(r, g, b, max, delta), Saturation(l, delta);
    SextantLeadsBack(r, g, b);
    ExtremesFit(r, g, b);
    ChromaIsDelta(l, delta);
    assert f / 6.0 * 6.0 == f;
    ToRgbaIs(Hsla(f / 6.0, s, l, color.a), r, g, b, min, delta);
  }

  lemma SextantLeadsBack(r: real, g: real, b: real)
    ensures var max, min := Max(r, Max(g, b)), Min(r, Min(g, b));
      LeadsBack(Sextant(r, g, b, max, max - min), r, g, b, min, max - min)
  {
    var max, min := Max(r, Max(g, b)), Min(r, Min(g, b));
    hide LeadsBack, RemEuclid;
    if max == min {
      GreyLeadsBack(r);
    } else if max == r {
      RedLeadsBack(r, g, b, max - min);
    } else if max == g {
      GreenLeadsBack(r, g, b, max - min);
    } else {
      BlueLeadsBack(r, g, b, max - min);
    }
  }

  /** What a hue of `f` sextants says of the components, when the greatest exceeds the least by `d`: which is
      which, and by how much the third exceeds the least. */
  ghost predicate HueSays(f: real, r: real, g: real, b: real, d: real) {
    && (0.0 <= f < 1.0 ==> r - b == d && g - b == d * f)
    && (1.0 <= f < 2.0 ==> g - b == d && r - b == d * (2.0 - f))
    && (2.0 <= f < 3.0 ==> g - r == d && b - r == d * (f - 2.0))
    && (3.0 <= f < 4.0 ==> b - r == d && g - r == d * (4.0 - f))
    && (4.0 <= f < 5.0 ==> b - g == d && r - g == d * (f - 4.0))
    && (5.0 <= f < 6.0 ==> r - g == d && b - g == d * (6.0 - f))
  }

  /** The hue of a colour says so of its components, and grey has hue zero; twice the lightness is the greatest
      and the least component together. */
  lemma HueMeans(color: Rgba)
    requires 0.0 <= color.r <= 1.0 && 0.0 <= color.g <= 1.0 && 0.0 <= color.b <= 1.0
    ensures var hsla, spread := ToHsla(color), Greatest(color) - Least(color);
      && 0.0 <= hsla.h < 1.0 && HueSays(6.0 * hsla.h, color.r, color.g, color.b, spread)
      && (spread == 0.0 ==> hsla.h == 0.0)
      && 2.0 * hsla.l == Greatest(color) + Least(color) && hsla.a == color.a
  {
    hide Saturation, Sextant, Max, Min, HueSays, LeadsBack, Greatest, Least;
    var r, g, b := color.r, color.g, color.b;
    var max, min := Max(r, Max(g, b)), Min(r, Min(g, b));
    var f := Sextant(r, g, b, max, max - min);
    SextantLeadsBack(r, g, b);
    GreyHasNoHue(r, g, b, max);
    assert 6.0 * (f / 6.0) == f;
    SextantMeans(f, r, g, b, min, max - min);
    ExtremesAre(color);
  }

  function Greatest(color: Rgba): (x: real)
    ensures x >= color.r && x >= color.g && x >= color.b && (x == color.r || x == color.g || x == color.b)
  {
    if color.r >= color.g && color.r >= color.b then color.r else if color.g >= color.b then color.g else color.b
  }

  function Least(color: Rgba): (x: real)
    ensures x <= color.r && x <= color.g && x <= color.b && (x == color.r || x == color.g || x == color.b)
  {
    if color.r <= color.g && color.r <= color.b then color.r else if color.g <= color.b then color.g else color.b
  }

  lemma ExtremesAre(color: Rgba)
    ensures Max(color.r, Max(color.g, color.b)) == Greatest(color)
    ensures Min(color.r, Min(color.g, color.b)) == Least(color)
  {
  }

  lemma GreyHasNoHue(r: real, g: real, b: real, max: real)
    ensures Sextant(r, g, b, max, 0.0) == 0.0
  {
  }

  lemma SextantMeans(f: real, r: real, g: real, b: real, m: real, d: real)
    requires LeadsBack(f, r, g, b, m, d)
    ensures 0.0 <= f < 6.0 && HueSays(f, r, g, b, d)
  {
    hide Ramp, Corner;
    RampIs(f);
    var x := d * Ramp(f);
    CornerSays(f, d, x, m, r, g, b);
    RampTimes(f, d);
  }

  lemma RampTimes(f: real, d: real)
    requires 0.0 <= f < 6.0
    ensures d * Ramp(f) == (if f < 1.0 then d * f else if f < 2.0 then d * (2.0 - f) else if f < 3.0 then d * (f - 2.0)
                            else if f < 4.0 then d * (4.0 - f) else if f < 5.0 then d * (f - 4.0) else d * (6.0 - f))
  {
    hide Ramp;
    RampIs(f);
  }

  lemma CornerSays(f: real, d: real, x: real, m: real, r: real, g: real, b: real)
    requires 0.0 <= f < 6.0 && Corner(f.Floor, d + m, x + m, m) == (r, g, b)
    ensures f < 1.0 ==> r - b == d && g - b == x
    ensures 1.0 <= f < 2.0 ==> g - b == d && r - b == x
    ensures 2.0 <= f < 3.0 ==> g - r == d && b - r == x
    ensures 3.0 <= f < 4.0 ==> b - r == d && g - r == x
    ensures 4.0 <= f < 5.0 ==> b - g == d && r - g == x
    ensures 5.0 <= f ==> r - g == d && b - g == x
  {
  }

  lemma ExtremesFit(r: real, g: real, b: real)
    requires 0.0 <= r <= 1.0 && 0.0 <= g <= 1.0 && 0.0 <= b <= 1.0
    ensures 0.0 <= Min(r, Min(g, b)) <= Max(r, Max(g, b)) <= 1.0
  {
  }

  lemma GreyLeadsBack(x: real)
    ensures LeadsBack(0.0, x, x, x, x, 0.0)
  {
  }

  // ---------------------------------------------------------------------------------------
  // HSL to RGB to HSL
  // ---------------------------------------------------------------------------------------

  /** From a hue in the turn and a positive chroma, the hue is found again. */
  lemma SextantOfCorner(f: real, m: real, c: real)
    requires 0.0 <= f < 6.0 && c > 0.0
    ensures var rgb := Components(f, c, m);
      && Max(rgb.0, Max(rgb.1, rgb.2)) == c + m && Min(rgb.0, Min(rgb.1, rgb.2)) == m
      && Sextant(rgb.0, rgb.1, rgb.2, c + m, c) == f
  {
    hide *;
    var u, x := Ramp(f), c * Ramp(f);
    ComponentsUnfold(f, c, m, x);
    RampIs(f);
    RampedIs(m, c, u, x);
    if f < 2.0 {
      RedToGreen(f, m, c, u, x);
    } else if f < 4.0 {
      GreenToBlue(f, m, c, u, x);
    } else {
      BlueToRed(f, m, c, u, x);
    }
  }

  lemma ComponentsUnfold(f: real, c: real, m: real, x: real)
    requires x == c * Ramp(f)
    ensures Components(f, c, m) == Corner(f.Floor, c + m, x + m, m)
  {
    hide Ramp;
  }

  lemma RampedIs(m: real, c: real, u: real, x: real)
    requires c > 0.0 && 0.0 <= u <= 1.0 && x == c * u
    ensures Ramped(m, c, u, x)
  {
    RampBounds(c, u);
    CancelFactor(u, c);
    CancelFactor(-u, c);
    assert c * -u == -(c * u);
    Divide(c * u, c, u, m);
  }

  // The quotients by which the hue is found.
  ghost predicate Ramped(m: real, c: real, u: real, x: real) {
    && c > 0.0 && 0.0 <= u <= 1.0 && 0.0 <= x <= c && (x == c <==> u == 1.0)
    && (x + m - m) / c == u && (m - (x + m)) / c == -u
  }

  lemma RedToGreen(f: real, m: real, c: real, u: real, x: real)
    requires 0.0 <= f < 2.0 && Ramped(m, c, u, x) && u == (if f < 1.0 then f else 2.0 - f)
    ensures var rgb := Corner(f.Floor, c + m, x + m, m);
      && Max(rgb.0, Max(rgb.1, rgb.2)) == c + m && Min(rgb.0, Min(rgb.1, rgb.2)) == m
      && Sextant(rgb.0, rgb.1, rgb.2, c + m, c) == f
  {
    RemSix(u);
    hide RemEuclid;
    if f < 1.0 {
      assert f.Floor == 0;
    } else if f == 1.0 {
      assert f.Floor == 1;
    } else {
      assert f.Floor == 1;
    }
  }

  lemma GreenToBlue(f: real, m: real, c: real, u: real, x: real)
    requires 2.0 <= f < 4.0 && Ramped(m, c, u, x) && u == (if f < 3.0 then f - 2.0 else 4.0 - f)
    ensures var rgb := Corner(f.Floor, c + m, x + m, m);
      && Max(rgb.0, Max(rgb.1, rgb.2)) == c + m && Min(rgb.0, Min(rgb.1, rgb.2)) == m
      && Sextant(rgb.0, rgb.1, rgb.2, c + m, c) == f
  {
    hide RemEuclid;
    if f < 3.0 {
      assert f.Floor == 2;
    } else {
      assert f.Floor == 3;
    }
  }

  lemma BlueToRed(f: real, m: real, c: real, u: real, x: real)
    requires 4.0 <= f < 6.0 && Ramped(m, c, u, x) && u == (if f < 5.0 then f - 4.0 else 6.0 - f)
    ensures var rgb := Corner(f.Floor, c + m, x + m, m);
      && Max(rgb.0, Max(rgb.1, rgb.2)) == c + m && Min(rgb.0, Min(rgb.1, rgb.2)) == m
      && Sextant(rgb.0, rgb.1, rgb.2, c + m, c) == f
  {
    RemSix(-u);
    hide RemEuclid;
    if f < 5.0 {
      assert f.Floor == 4;
    } else {
      assert f.Floor == 5;
    }
  }

  lemma Divide(x: real, c: real, u: real, m: real)
    requires c > 0.0 && x / c == u && -x / c == -u
    ensures (x + m - m) / c == u && (m - (x + m)) / c == -u
  {
    assert x + m - m == x && m - (x + m) == -x;
  }

  lemma RampBounds(c: real, u: real)
    requires c > 0.0 && 0.0 <= u <= 1.0
    ensures 0.0 <= c * u <= c && (c * u == c <==> u == 1.0) && (c * u == 0.0 <==> u == 0.0)
  {
    SignOfProduct(c, u);
    SignOfProduct(c, 1.0 - u);
  }

  lemma ChromaBounds(s: real, l: real)
    requires 0.0 <= s <= 1.0 && 0.0 <= l <= 1.0
    ensures var c := Chroma(s, l);
      && 0.0 <= c && 0.0 <= Base(c, l) && c + Base(c, l) <= 1.0
      && (c == 0.0 <==> s == 0.0 || l == 0.0 || l == 1.0)
  {
    var k := 1.0 - Abs(2.0 * l - 1.0);
    if k > 0.0 {
      SignOfProduct(k, s);
      SignOfProduct(k, 1.0 - s);
    }
  }

  lemma InRange(f: real, c: real, m: real, a: real)
    requires 0.0 <= f < 6.0 && 0.0 <= c && 0.0 <= m && c + m <= 1.0
    ensures var rgb := Components(f, c, m); Clamped(rgb, a) == Rgba(rgb.0, rgb.1, rgb.2, a)
  {
    hide Ramp, Corner, Clamp;
    RampIs(f);
    var x := c * Ramp(f);
    Between(c, Ramp(f), x);
    CornerInRange(f.Floor, c + m, x + m, m);
    ComponentsUnfold(f, c, m, x);
  }

  lemma Between(c: real, u: real, x: real)
    requires c >= 0.0 && 0.0 <= u <= 1.0 && x == c * u
    ensures 0.0 <= x <= c
  {
    if c > 0.0 {
      RampBounds(c, u);
    }
  }

  lemma CornerInRange(sector: int, cm: real, xm: real, m: real)
    requires 0.0 <= cm <= 1.0 && 0.0 <= xm <= 1.0 && 0.0 <= m <= 1.0
    ensures var rgb := Corner(sector, cm, xm, m);
      Clamp(rgb.0) == rgb.0 && Clamp(rgb.1) == rgb.1 && Clamp(rgb.2) == rgb.2
  {
  }

  lemma ToHslaIs(color: Rgba, m: real, c: real, f: real, l: real, s: real)
    requires Max(color.r, Max(color.g, color.b)) == c + m && Min(color.r, Min(color.g, color.b)) == m
    requires Sextant(color.r, color.g, color.b, c + m, c) == f && m == Base(c, l) && Saturation(l, c) == s
    ensures ToHsla(color) == Hsla(f / 6.0, s, l, color.a)
  {
    hide Sextant, Saturation, Max, Min;
    assert c + m - m == c;
  }

  lemma ChromaticRoundTrip(color: Hsla)
    requires 0.0 <= color.h < 1.0 && 0.0 < color.s <= 1.0 && 0.0 < color.l < 1.0
    ensures ToHsla(ToRgba(color)) == color
  {
    hide Chroma, Saturation, Sextant, Components, Clamped, Base, ToHsla, Max, Min;
    var f, c := color.h * 6.0, Chroma(color.s, color.l);
    var m := Base(c, color.l);
    ChromaBounds(color.s, color.l);
    InRange(f, c, m, color.a);
    SextantOfCorner(f, m, c);
    SaturationOfChroma(color.l, color.s);
    ToHslaIs(ToRgba(color), m, c, f, color.l, color.s);
  }

  // Without chroma all components are the lightness.
  lemma GreyConverts(color: Hsla)
    requires 0.0 <= color.l <= 1.0 && Chroma(color.s, color.l) == 0.0
    ensures ToHsla(ToRgba(color)) == Hsla(0.0, 0.0, color.l, color.a)
  {
    GreyComponents(color.h * 6.0, color.l);
    hide Chroma, Components;
  }

  lemma GreyComponents(f: real, l: real)
    ensures Components(f, 0.0, Base(0.0, l)) == (l, l, l)
  {
    hide Ramp;
    assert 0.0 * Ramp(f) == 0.0;
  }

  // A full turn is red again: its hue comes back as zero.
  lemma FullTurnIsRed(color: Hsla)
    requires color.h == 1.0 && 0.0 < color.s <= 1.0 && 0.0 < color.l < 1.0
    ensures ToHsla(ToRgba(color)).h == 0.0
  {
    var c := Chroma(color.s, color.l);
    var m := Base(c, color.l);
    ChromaBounds(color.s, color.l);
    RedComponents(c, m);
    hide Chroma, Components, Base, Saturation, RemEuclid;
    assert ToRgba(color) == Rgba(c + m, m, m, color.a);
    assert (m - m) / c == 0.0;
    RemSix(0.0);
  }

  lemma RedComponents(c: real, m: real)
    ensures Components(6.0, c, m) == (c + m, m, m)
  {
    NoRamp();
    hide Ramp;
  }

  lemma NoRamp()
    ensures Ramp(6.0) == 0.0
  {
    assert (6.0 / 2.0).Floor == 3;
  }

  /** A colour given by hue, saturation and lightness in [0, 1] survives the conversion to RGB and back
      exactly when its hue is below a full turn and, where it is grey, hue and saturation are zero. */
  lemma HslRoundTrip(color: Hsla)
    requires 0.0 <= color.h <= 1.0 && 0.0 <= color.s <= 1.0 && 0.0 <= color.l <= 1.0
    ensures ToHsla(ToRgba(color)) == color <==>
      if color.s == 0.0 || color.l == 0.0 || color.l == 1.0 then color.h == 0.0 && color.s == 0.0 else color.h < 1.0
  {
    ChromaBounds(color.s, color.l);
    if color.s == 0.0 || color.l == 0.0 || color.l == 1.0 {
      GreyConverts(color);
    } else if color.h < 1.0 {
      ChromaticRoundTrip(color);
    } else {
      FullTurnIsRed(color);
    }
    hide Chroma, ToHsla, ToRgba;
  }
}
