/** The pixel buffer of a placeholder: rows of RGB samples, each behind one filter byte. */
module PixelRows {
  type Color = c: seq<int> | |c| == 3 witness [0, 0, 0]

  const BACKGROUND: Color := [244, 247, 250]

  datatype Rect = Rect(x: real, y: real, width: real, height: real, color: Color)

  function Stride(width: nat): nat { width * 3 + 1 }

  function Pos(width: nat, row: nat, offset: nat): nat { row * Stride(width) + offset }

  /** `Math.round`: halves go up. */
  function Round(v: real): int { (v + 0.5).Floor }

  function Clamp(low: int, high: int, v: int): int {
    var capped := if v < high then v else high;
    if capped < low then low else capped
  }

  /** A rectangle covers the pixels whose centre lies past its near edge and not past its far edge. */
  predicate Covers(r: Rect, row: nat, col: nat) {
    && r.x < col as real + 0.5 <= r.x + r.width
    && r.y < row as real + 0.5 <= r.y + r.height
  }

  /** A pixel shows the last rectangle that covers it. */
  function Shade(rects: seq<Rect>, row: nat, col: nat): Color {
    if rects == [] then BACKGROUND
    else if Covers(rects[|rects| - 1], row, col) then rects[|rects| - 1].color
    else Shade(rects[..|rects| - 1], row, col)
  }

  /** What the picture promises at one byte of a row: filter byte 0, then the samples left to right. */
  function Promised(rects: seq<Rect>, row: nat, offset: nat): int {
    if offset == 0 then 0 else Shade(rects, row, (offset - 1) / 3)[(offset - 1) % 3]
  }

  predicate Shows(pixels: seq<int>, width: nat, height: nat, rects: seq<Rect>) {
    && |pixels| == height * Stride(width)
    && forall row: nat, o: nat :: row < height && o < Stride(width) ==>
         Within(width, height, row, o) && pixels[Pos(width, row, o)] == Promised(rects, row, o)
  }

  predicate Within(width: nat, height: nat, row: nat, offset: nat) {
    Pos(width, row, offset) < height * Stride(width)
  }

  lemma MultipleBelow(a: nat, b: nat, s: nat)
    requires a < b
    ensures a * s + s <= b * s
  {
    assert b * s == a * s + (b - a) * s && (b - a) * s == s + (b - a - 1) * s;
  }

  lemma RowsApart(width: nat, row: nat, offset: nat, row': nat, offset': nat)
    requires offset <= Stride(width) && offset' < Stride(width)
    ensures row < row' ==> Pos(width, row, offset) <= Pos(width, row', 0)
    ensures row' < row ==> Pos(width, row', offset') < Pos(width, row, 0)
  {
    if row < row' { MultipleBelow(row, row', Stride(width)); }
    if row' < row { MultipleBelow(row', row, Stride(width)); }
  }

  lemma PositionWithin(width: nat, height: nat, row: nat, offset: nat)
    requires row < height && offset < Stride(width)
    ensures Within(width, height, row, offset)
  {
    RowsApart(width, row, offset + 1, height, 0);
  }

  lemma EdgeCovers(lead: real, extent: real, size: nat, at: nat)
    requires at < size
    ensures var near := Clamp(0, size, Round(lead)); var far := Clamp(near, size, Round(lead + extent));
      near <= at < far <==> lead < at as real + 0.5 <= lead + extent
  {
    assert Round(lead) <= at <==> lead < at as real + 0.5;
    assert at < Round(lead + extent) <==> at as real + 0.5 <= lead + extent;
  }

  /** `Buffer.fill` with a three-byte pattern. */
  method FillRange(pixels: array<int>, color: Color, from: nat, to: nat)
    requires from <= to <= pixels.Length
    modifies pixels
    ensures forall k :: 0 <= k < pixels.Length ==>
      pixels[k] == if from <= k < to then color[(k - from) % 3] else old(pixels[k])
  {
    for i := from to to
      invariant forall k :: 0 <= k < pixels.Length ==>
        pixels[k] == if from <= k < i then color[(k - from) % 3] else old(pixels[k])
    {
      pixels[i] := color[(i - from) % 3];
    }
  }

  /** Which bytes a span of one row is, and which sample of the colour each takes. */
  lemma SpanIndex(width: nat, row: nat, left: nat, right: nat, row': nat, o: nat)
    requires left <= right <= width && o < Stride(width)
    ensures var at := Pos(width, row', o) - Pos(width, row, 1 + left * 3);
      && (0 <= at && Pos(width, row', o) < Pos(width, row, 1 + right * 3)
          <==> row' == row && o > 0 && left <= (o - 1) / 3 < right)
      && (row' == row && o > 0 && left <= (o - 1) / 3 ==> at % 3 == (o - 1) % 3)
  {
    RowsApart(width, row, 1 + right * 3, row', o);
    if row' == row && o > 0 && left <= (o - 1) / 3 {
      assert Pos(width, row', o) - Pos(width, row, 1 + left * 3) == (o - 1) - left * 3;
    }
  }

  method FillSpan(pixels: array<int>, width: nat, height: nat, row: nat, left: nat, right: nat, color: Color)
    requires pixels.Length == height * Stride(width) && row < height && left <= right <= width
    modifies pixels
    ensures forall row': nat, o: nat :: row' < height && o < Stride(width) ==>
      && Within(width, height, row', o)
      && pixels[Pos(width, row', o)] ==
           if row' == row && o > 0 && left <= (o - 1) / 3 < right then color[(o - 1) % 3]
           else old(pixels[Pos(width, row', o)])
  {
    PositionWithin(width, height, row, 0);
    RowsApart(width, row, 1 + right * 3, height, 0);
    FillRange(pixels, color, Pos(width, row, 1 + left * 3), Pos(width, row, 1 + right * 3));
    forall row': nat, o: nat | row' < height && o < Stride(width)
      ensures Within(width, height, row', o)
      ensures pixels[Pos(width, row', o)] ==
           if row' == row && o > 0 && left <= (o - 1) / 3 < right then color[(o - 1) % 3]
           else old(pixels[Pos(width, row', o)])
    {
      PositionWithin(width, height, row', o);
      SpanIndex(width, row, left, right, row', o);
    }
  }

  method Fill(pixels: array<int>, width: nat, height: nat, r: Rect, ghost rects: seq<Rect>)
    requires Shows(pixels[..], width, height, rects)
    modifies pixels
    ensures Shows(pixels[..], width, height, rects + [r])
  {
    var left := Clamp(0, width, Round(r.x));
    var right := Clamp(left, width, Round(r.x + r.width));
    var top := Clamp(0, height, Round(r.y));
    var bottom := Clamp(top, height, Round(r.y + r.height));
    for row := top to bottom
      invariant forall row': nat, o: nat :: row' < height && o < Stride(width) ==>
        && Within(width, height, row', o)
        && pixels[Pos(width, row', o)] ==
             if top <= row' < row && o > 0 && left <= (o - 1) / 3 < right then r.color[(o - 1) % 3]
             else Promised(rects, row', o)
    {
      FillSpan(pixels, width, height, row, left, right, r.color);
    }
    forall row': nat, o: nat | row' < height && o < Stride(width)
      ensures Within(width, height, row', o) && pixels[..][Pos(width, row', o)] == Promised(rects + [r], row', o)
    {
      assert (rects + [r])[..|rects|] == rects;
      EdgeCovers(r.y, r.height, height, row');
      if o > 0 { EdgeCovers(r.x, r.width, width, (o - 1) / 3); }
    }
  }

  method PaintBackground(width: nat, height: nat) returns (pixels: array<int>)
    ensures fresh(pixels) && Shows(pixels[..], width, height, [])
  {
    var size: nat := height * Stride(width);
    pixels := new int[size](_ => 0);
    forall row: nat, o: nat | row < height && o < Stride(width) ensures Within(width, height, row, o) {
      PositionWithin(width, height, row, o);
    }
    for row := 0 to height
      invariant forall row': nat, o: nat :: row' < height && o < Stride(width) ==>
        && Within(width, height, row', o)
        && pixels[Pos(width, row', o)] == if row' < row then Promised([], row', o) else 0
    {
      FillSpan(pixels, width, height, row, 0, width, BACKGROUND);
    }
  }

  /** Background first, then every rectangle in order. */
  method Paint(width: nat, height: nat, rects: seq<Rect>) returns (pixels: array<int>)
    ensures fresh(pixels) && Shows(pixels[..], width, height, rects)
  {
    pixels := PaintBackground(width, height);
    for i := 0 to |rects|
      invariant Shows(pixels[..], width, height, rects[..i])
    {
      Fill(pixels, width, height, rects[i], rects[..i]);
      assert rects[..i] + [rects[i]] == rects[..i + 1];
    }
    assert rects[..|rects|] == rects;
  }
}
