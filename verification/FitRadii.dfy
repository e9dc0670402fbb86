/** Shrinking corner radii until adjacent ones fit their sides. */
module FitRadii {
  datatype Corner = Corner(h: real, v: real)

  /** Clockwise from the top left. */
  datatype Corners = Corners(tl: Corner, tr: Corner, br: Corner, bl: Corner)

  function Ratio(sum: real, side: real): real { if sum > 0.0 then side / sum else 1.0 }

  function Least(a: real, b: real): real { if a < b then a else b }

  function Factor(c: Corners, width: real, height: real): real {
    LeastOf(Ratio(c.tl.h + c.tr.h, width), Ratio(c.bl.h + c.br.h, width),
            Ratio(c.tl.v + c.bl.v, height), Ratio(c.tr.v + c.br.v, height))
  }

  function Scaled(c: Corner, f: real): Corner { Corner(c.h * f, c.v * f) }

  function AllScaled(c: Corners, f: real): Corners {
    Corners(Scaled(c.tl, f), Scaled(c.tr, f), Scaled(c.br, f), Scaled(c.bl, f))
  }

  function FitRadii(c: Corners, width: real, height: real): Corners { AllScaled(c, Factor(c, width, height)) }

  predicate NonNegative(c: Corners) {
    && c.tl.h >= 0.0 && c.tr.h >= 0.0 && c.br.h >= 0.0 && c.bl.h >= 0.0
    && c.tl.v >= 0.0 && c.tr.v >= 0.0 && c.br.v >= 0.0 && c.bl.v >= 0.0
  }

  /** On no side do the radii of its two corners overlap. */
  predicate Fits(c: Corners, width: real, height: real) {
    && c.tl.h + c.tr.h <= width && c.bl.h + c.br.h <= width
    && c.tl.v + c.bl.v <= height && c.tr.v + c.br.v <= height
  }

  lemma ScaleSide(a: real, b: real, p: real, q: real, side: real, f: real) returns (ratio: real)
    requires a >= 0.0 && b >= 0.0 && side >= 0.0 && 0.0 <= f <= 1.0 && p == a * f && q == b * f
    ensures ratio == Ratio(a + b, side) && (p + q <= side <==> f <= ratio)
  {
    ratio := Ratio(a + b, side);
    assert p + q == (a + b) * f;
    if a + b > 0.0 {
      assert (a + b) * (side / (a + b)) == side;
      Scaling(a + b, f, side / (a + b));
    }
  }

  lemma Scaling(sum: real, f: real, g: real)
    requires sum > 0.0
    ensures sum * f <= sum * g <==> f <= g
  {
    assert sum * g - sum * f == sum * (g - f);
  }

  lemma RatioPositive(sum: real, side: real)
    requires side >= 0.0
    ensures Ratio(sum, side) >= 0.0
  {
  }

  function LeastOf(a: real, b: real, c: real, d: real): real { Least(1.0, Least(Least(a, b), Least(c, d))) }

  lemma FitsWhen(d: Corners, width: real, height: real, f: real, top: real, bottom: real, left: real, right: real)
    requires f <= 1.0
    requires (d.tl.h + d.tr.h <= width <==> f <= top) && (d.bl.h + d.br.h <= width <==> f <= bottom)
    requires (d.tl.v + d.bl.v <= height <==> f <= left) && (d.tr.v + d.br.v <= height <==> f <= right)
    ensures Fits(d, width, height) <==> f <= LeastOf(top, bottom, left, right)
  {
  }

  /** A factor makes the radii fit exactly when it does not exceed the code's: that one is the largest. */
  lemma FitsIff(c: Corners, width: real, height: real, f: real)
    requires NonNegative(c) && width >= 0.0 && height >= 0.0 && 0.0 <= f <= 1.0
    ensures Fits(AllScaled(c, f), width, height) <==> f <= Factor(c, width, height)
  {
    var d := AllScaled(c, f);
    var top, bottom := AcrossFits(c, d, width, f);
    var left, right := DownFits(c, d, height, f);
    FitsWhen(d, width, height, f, top, bottom, left, right);
  }

  lemma AcrossFits(c: Corners, d: Corners, width: real, f: real) returns (top: real, bottom: real)
    requires NonNegative(c) && width >= 0.0 && 0.0 <= f <= 1.0 && d == AllScaled(c, f)
    ensures top == Ratio(c.tl.h + c.tr.h, width) && bottom == Ratio(c.bl.h + c.br.h, width)
    ensures (d.tl.h + d.tr.h <= width <==> f <= top) && (d.bl.h + d.br.h <= width <==> f <= bottom)
  {
    top := ScaleSide(c.tl.h, c.tr.h, d.tl.h, d.tr.h, width, f);
    bottom := ScaleSide(c.bl.h, c.br.h, d.bl.h, d.br.h, width, f);
  }

  lemma DownFits(c: Corners, d: Corners, height: real, f: real) returns (left: real, right: real)
    requires NonNegative(c) && height >= 0.0 && 0.0 <= f <= 1.0 && d == AllScaled(c, f)
    ensures left == Ratio(c.tl.v + c.bl.v, height) && right == Ratio(c.tr.v + c.br.v, height)
    ensures (d.tl.v + d.bl.v <= height <==> f <= left) && (d.tr.v + d.br.v <= height <==> f <= right)
  {
    left := ScaleSide(c.tl.v, c.bl.v, d.tl.v, d.bl.v, height, f);
    right := ScaleSide(c.tr.v, c.br.v, d.tr.v, d.br.v, height, f);
  }

  /** Radii that fit are left alone; any others are shrunk by one factor, the largest that makes them fit. */
  lemma FittedFits(c: Corners, width: real, height: real)
    requires NonNegative(c) && width >= 0.0 && height >= 0.0
    ensures 0.0 <= Factor(c, width, height) <= 1.0
    ensures Fits(FitRadii(c, width, height), width, height)
    ensures Fits(c, width, height) <==> Factor(c, width, height) == 1.0
    ensures Fits(c, width, height) ==> FitRadii(c, width, height) == c
  {
    RatioPositive(c.tl.h + c.tr.h, width);
    RatioPositive(c.bl.h + c.br.h, width);
    RatioPositive(c.tl.v + c.bl.v, height);
    RatioPositive(c.tr.v + c.br.v, height);
    FitsIff(c, width, height, Factor(c, width, height));
    FitsIff(c, width, height, 1.0);
    assert AllScaled(c, 1.0) == c;
  }
}
