/** Judging a per-pixel difference map in square tiles. */
module TileJudge {
  import opened Common
  import opened Iteration

  const TILE_LIMIT := 24.0
  const CHANGED_SHARE := 0.25
  const CHANGED_MEAN := 6.0

  /** `Number(value.toFixed(3))`: the nearest thousandth, halves up. */
  function Round3(v: real): real { Thousandths(v) as real / 1000.0 }

  function Thousandths(v: real): int { (v * 1000.0 + 0.5).Floor }

  function Least(a: nat, b: nat): nat { if a < b then a else b }

  function Ahead(from: nat, end: nat): nat { if from < end then end - from else 0 }

  lemma InMap(x: nat, y: nat, width: nat, height: nat)
    requires x <= width && y < height
    ensures y * width + x <= height * width
  {
    assert height * width == y * width + (height - y) * width
      && (height - y) * width == width + (height - y - 1) * width;
  }

  function Sum(m: seq<nat>, from: nat, until: nat): nat
    requires from <= until <= |m|
    decreases until
  {
    if from == until then 0 else Sum(m, from, until - 1) + m[until - 1]
  }

  datatype Grid = Grid(pixels: seq<nat>, width: nat, height: nat)
  type Map = g: Grid | |g.pixels| == g.height * g.width witness Grid([], 0, 0)

  /** Sum of one row's pixels in the columns `left` to `right`. */
  function RowSum(g: Map, y: nat, left: nat, right: nat): nat
    requires left <= right <= g.width && y < g.height
  {
    InMap(right, y, g.width, g.height);
    Sum(g.pixels, y * g.width + left, y * g.width + right)
  }

  function BlockSum(g: Map, left: nat, right: nat, top: nat, bottom: nat): nat
    requires left <= right <= g.width && top <= bottom <= g.height
    decreases bottom
  {
    if top == bottom then 0 else BlockSum(g, left, right, top, bottom - 1) + RowSum(g, bottom - 1, left, right)
  }

  datatype Tile = Tile(x: nat, y: nat, sum: nat, count: nat)

  /** The tile's exact mean. */
  function Mean(t: Tile): real
    requires t.count > 0
  {
    t.sum as real / t.count as real
  }

  function TileAt(g: Map, side: nat, left: nat, top: nat): (t: Tile)
    requires side > 0 && left < g.width && top < g.height
    ensures t.count > 0
  {
    var right, bottom := Least(left + side, g.width), Least(top + side, g.height);
    Tile(left, top, BlockSum(g, left, right, top, bottom), Area(right - left, bottom - top))
  }

  function Area(a: nat, b: nat): (r: nat)
    ensures a > 0 && b > 0 ==> r > 0
  {
    a * b
  }

  lemma AreaBeside(a: nat, b: nat, h: nat)
    ensures Area(a + b, h) == Area(a, h) + Area(b, h)
  {
  }

  lemma AreaBelow(w: nat, a: nat, b: nat)
    ensures Area(w, a + b) == Area(w, a) + Area(w, b) && Area(w, 0) == 0 && Area(w, 1) == w
  {
  }

  type Shown = t: Tile | t.count > 0 witness Tile(0, 0, 0, 1)

  function Band(g: Map, side: nat, left: nat, top: nat): seq<Shown>
    requires side > 0 && top < g.height
    decreases Ahead(left, g.width)
  {
    if left >= g.width then [] else [TileAt(g, side, left, top)] + Band(g, side, left + side, top)
  }

  /** Every tile from a row on, band after band, left to right. */
  function Tiles(g: Map, side: nat, top: nat): seq<Shown>
    requires side > 0
    decreases Ahead(top, g.height)
  {
    if top >= g.height then [] else Band(g, side, 0, top) + Tiles(g, side, top + side)
  }

  datatype Tally = Tally(total: nat, tiles: nat, changed: nat, x: nat, y: nat, worst: real)

  const NOTHING := Tally(0, 0, 0, 0, 0, 0.0)

  function Add(a: Tally, t: Shown): Tally {
    var counted := a.(total := a.total + t.sum, tiles := a.tiles + 1,
      changed := a.changed + if Mean(t) > CHANGED_MEAN then 1 else 0);
    if Mean(t) > a.worst then counted.(x := t.x, y := t.y, worst := Round3(Mean(t))) else counted
  }

  datatype Verdict = Verdict(ok: bool, x: nat, y: nat, worst: real, changedShare: Option<real>, mean: Option<real>)

  /** `None` where the code divides zero by zero: no comparison with it holds. */
  function Ratio(n: nat, d: nat): Option<real> {
    if d == 0 then None else Some(Round3(n as real / d as real))
  }

  method SumTile(g: Map, side: nat, left: nat, top: nat) returns (t: Shown)
    requires side > 0 && left < g.width && top < g.height
    ensures t == TileAt(g, side, left, top)
  {
    var sum: nat, count: nat := 0, 0;
    var right, bottom := Least(left + side, g.width), Least(top + side, g.height);
    for y := top to bottom
      invariant sum == BlockSum(g, left, right, top, y) && count == Area(right - left, y - top)
    {
      ghost var before, counted := sum, count;
      AreaBelow(right - left, y - top, 1);
      InMap(right, y, g.width, g.height);
      for x := left to right
        invariant sum == before + RowSum(g, y, left, x) && count == counted + (x - left)
      {
        sum := sum + g.pixels[y * g.width + x];
        count := count + 1;
      }
    }
    t := Tile(left, top, sum, count);
  }

  method JudgeBand(g: Map, side: nat, top: nat, start: Tally) returns (a: Tally)
    requires side > 0 && top < g.height
    ensures a == Fold(Add, start, Band(g, side, 0, top))
  {
    a := start;
    var left := 0;
    while left < g.width
      invariant Fold(Add, a, Band(g, side, left, top)) == Fold(Add, start, Band(g, side, 0, top))
      decreases Ahead(left, g.width)
    {
      var t := SumTile(g, side, left, top);
      assert Band(g, side, left, top)[1..] == Band(g, side, left + side, top);
      a := Add(a, t);
      left := left + side;
    }
  }

  method TallyTiles(g: Map, side: nat) returns (a: Tally)
    requires side > 0
    ensures a == Fold(Add, NOTHING, Tiles(g, side, 0))
  {
    a := NOTHING;
    var top := 0;
    while top < g.height
      invariant Fold(Add, a, Tiles(g, side, top)) == Fold(Add, NOTHING, Tiles(g, side, 0))
      decreases Ahead(top, g.height)
    {
      FoldAppend(Add, a, Band(g, side, 0, top), Tiles(g, side, top + side));
      a := JudgeBand(g, side, top, a);
      top := top + side;
    }
  }

  /** The verdict, in terms of every tile's exact mean. */
  method Judge(pixels: seq<nat>, width: nat, height: nat, side: nat) returns (v: Option<Verdict>)
    requires side > 0
    ensures v.None? <==> |pixels| != width * height
    ensures v.Some? ==> Judged(Tiles(Grid(pixels, width, height), side, 0), v.value)
    ensures v.Some? ==> v.value.mean == Ratio(Sum(pixels, 0, |pixels|), |pixels|)
  {
    if |pixels| != width * height { return None; }
    var g := Grid(pixels, width, height);
    var a := TallyTiles(g, side);
    TallyMeans(Tiles(g, side, 0));
    TilesPartition(g, side);
    var share := Ratio(a.changed, a.tiles);
    v := Some(Verdict(a.worst <= TILE_LIMIT && share.Some? && share.value <= CHANGED_SHARE,
      a.x, a.y, a.worst, share, Ratio(a.total, |pixels|)));
    OkMeans(Tiles(g, side, 0), a.worst);
  }

  function Changed(tiles: seq<Shown>): nat {
    if tiles == [] then 0
    else Changed(tiles[..|tiles| - 1]) + if Mean(tiles[|tiles| - 1]) > CHANGED_MEAN then 1 else 0
  }

  function Total(tiles: seq<Shown>): nat {
    if tiles == [] then 0 else Total(tiles[..|tiles| - 1]) + tiles[|tiles| - 1].sum
  }

  function Counted(tiles: seq<Shown>): nat {
    if tiles == [] then 0 else Counted(tiles[..|tiles| - 1]) + tiles[|tiles| - 1].count
  }

  /** The largest of the tiles' rounded means, at least 0. */
  predicate IsWorst(tiles: seq<Shown>, worst: real) {
    && (forall t :: t in tiles ==> Round3(Mean(t)) <= worst)
    && (worst == 0.0 || exists t :: t in tiles && Round3(Mean(t)) == worst)
  }

  predicate Located(tiles: seq<Shown>, x: nat, y: nat, worst: real) {
    worst == 0.0 || exists t :: t in tiles && t.x == x && t.y == y && Round3(Mean(t)) == worst
  }

  /** No tile's exact mean reaches the limit plus half a thousandth. */
  predicate AllWithin(tiles: seq<Shown>) {
    forall t :: t in tiles ==> Mean(t) < TILE_LIMIT + 0.0005
  }

  predicate Judged(tiles: seq<Shown>, v: Verdict) {
    && v.changedShare == Ratio(Changed(tiles), |tiles|)
    && IsWorst(tiles, v.worst)
    && Located(tiles, v.x, v.y, v.worst)
    && (v.ok <==> tiles != [] && AllWithin(tiles) && v.changedShare.value <= CHANGED_SHARE)
  }

  lemma RoundOrder(a: real, b: real)
    requires a <= b
    ensures Round3(a) <= Round3(b)
  {
    assert Thousandths(a) <= Thousandths(b);
  }

  lemma RoundInt(n: int)
    ensures Round3(n as real / 1000.0) == n as real / 1000.0
  {
    assert n as real / 1000.0 * 1000.0 == n as real;
    assert Thousandths(n as real / 1000.0) == n;
  }

  /** Rounding a rounded value changes nothing, so comparing with a rounded worst still finds the largest rounded
      mean. */
  lemma RoundTwice(a: real, b: real)
    ensures a > Round3(b) ==> Round3(a) >= Round3(b)
    ensures a <= Round3(b) ==> Round3(a) <= Round3(b)
  {
    RoundInt(Thousandths(b));
    if a > Round3(b) { RoundOrder(Round3(b), a); } else { RoundOrder(a, Round3(b)); }
  }

  lemma RoundWithin(m: real)
    ensures Round3(m) <= TILE_LIMIT <==> m < TILE_LIMIT + 0.0005
  {
    assert Round3(m) <= TILE_LIMIT <==> Thousandths(m) <= 24000;
  }

  lemma OkMeans(tiles: seq<Shown>, worst: real)
    requires IsWorst(tiles, worst)
    ensures worst <= TILE_LIMIT <==> AllWithin(tiles)
  {
    forall t | t in tiles ensures Round3(Mean(t)) <= TILE_LIMIT <==> Mean(t) < TILE_LIMIT + 0.0005 {
      RoundWithin(Mean(t));
    }
  }

  lemma {:induction false} TallyMeans(tiles: seq<Shown>)
    ensures var a := Fold(Add, NOTHING, tiles);
      && a.total == Total(tiles) && a.tiles == |tiles| && a.changed == Changed(tiles)
      && (a.worst == 0.0 || exists b :: a.worst == Round3(b))
      && IsWorst(tiles, a.worst) && Located(tiles, a.x, a.y, a.worst)
  {
    if tiles != [] {
      var rest, last := tiles[..|tiles| - 1], tiles[|tiles| - 1];
      TallyMeans(rest);
      var before := Fold(Add, NOTHING, rest);
      assert tiles == rest + [last];
      FoldAppend(Add, NOTHING, rest, [last]);
      assert Fold(Add, before, [last]) == Add(before, last);
      WorstStep(rest, last, before);
    }
  }

  lemma WorstStep(rest: seq<Shown>, last: Shown, before: Tally)
    requires IsWorst(rest, before.worst) && Located(rest, before.x, before.y, before.worst)
    ensures var a := Add(before, last);
      IsWorst(rest + [last], a.worst) && Located(rest + [last], a.x, a.y, a.worst)
  {
    assert Round3(0.0) == 0.0;
    if before.worst == 0.0 {
      RoundTwice(Mean(last), 0.0);
    } else {
      var t :| t in rest && Round3(Mean(t)) == before.worst;
      RoundTwice(Mean(last), Mean(t));
    }
    assert last in rest + [last];
    assert forall t :: t in rest ==> t in rest + [last];
  }

  lemma {:induction false} CountsAppend(a: seq<Shown>, b: seq<Shown>)
    ensures Total(a + b) == Total(a) + Total(b) && Counted(a + b) == Counted(a) + Counted(b)
  {
    if b == [] {
      assert a + b == a;
    } else {
      assert (a + b)[..|a + b| - 1] == a + b[..|b| - 1];
      CountsAppend(a, b[..|b| - 1]);
    }
  }

  lemma {:induction false} SumSplit(m: seq<nat>, a: nat, b: nat, c: nat)
    requires a <= b <= c <= |m|
    ensures Sum(m, a, c) == Sum(m, a, b) + Sum(m, b, c)
    decreases c
  {
    if b < c { SumSplit(m, a, b, c - 1); }
  }

  lemma RowBeside(g: Map, a: nat, b: nat, c: nat, y: nat)
    requires a <= b <= c <= g.width && y < g.height
    ensures RowSum(g, y, a, c) == RowSum(g, y, a, b) + RowSum(g, y, b, c)
  {
    InMap(c, y, g.width, g.height);
    SumSplit(g.pixels, y * g.width + a, y * g.width + b, y * g.width + c);
  }

  lemma {:induction false} BlockBeside(g: Map, a: nat, b: nat, c: nat, top: nat, bottom: nat)
    requires a <= b <= c <= g.width && top <= bottom <= g.height
    ensures BlockSum(g, a, c, top, bottom) == BlockSum(g, a, b, top, bottom) + BlockSum(g, b, c, top, bottom)
    decreases bottom
  {
    if top < bottom {
      BlockBeside(g, a, b, c, top, bottom - 1);
      RowBeside(g, a, b, c, bottom - 1);
    }
  }

  lemma {:induction false} BlockBelow(g: Map, left: nat, right: nat, a: nat, b: nat, c: nat)
    requires left <= right <= g.width && a <= b <= c <= g.height
    ensures BlockSum(g, left, right, a, c) == BlockSum(g, left, right, a, b) + BlockSum(g, left, right, b, c)
    decreases c
  {
    if b < c { BlockBelow(g, left, right, a, b, c - 1); }
  }

  /** A band is its first tile and the band after it. */
  lemma BandStep(g: Map, side: nat, left: nat, top: nat)
    requires side > 0 && left < g.width && top < g.height
    ensures var t, rest := TileAt(g, side, left, top), Band(g, side, Least(left + side, g.width), top);
      && Total(Band(g, side, left, top)) == t.sum + Total(rest)
      && Counted(Band(g, side, left, top)) == t.count + Counted(rest)
  {
    var right := Least(left + side, g.width);
    assert Band(g, side, left + side, top) == Band(g, side, right, top);
    CountsAppend([TileAt(g, side, left, top)], Band(g, side, right, top));
    OneTile(TileAt(g, side, left, top));
  }

  /** Sums and areas of two blocks side by side. */
  lemma Beside(g: Map, left: nat, right: nat, top: nat, bottom: nat)
    requires left <= right <= g.width && top <= bottom <= g.height
    ensures BlockSum(g, left, g.width, top, bottom)
      == BlockSum(g, left, right, top, bottom) + BlockSum(g, right, g.width, top, bottom)
    ensures Area(g.width - left, bottom - top) == Area(right - left, bottom - top) + Area(g.width - right, bottom - top)
  {
    BlockBeside(g, left, right, g.width, top, bottom);
    AreaBeside(right - left, g.width - right, bottom - top);
  }

  lemma {:induction false} BandPartition(g: Map, side: nat, left: nat, top: nat)
    requires side > 0 && left <= g.width && top < g.height
    ensures var bottom := Least(top + side, g.height);
      && Total(Band(g, side, left, top)) == BlockSum(g, left, g.width, top, bottom)
      && Counted(Band(g, side, left, top)) == Area(g.width - left, bottom - top)
    decreases Ahead(left, g.width)
  {
    var bottom := Least(top + side, g.height);
    if left < g.width {
      var right := Least(left + side, g.width);
      BandPartition(g, side, right, top);
      BandStep(g, side, left, top);
      Beside(g, left, right, top, bottom);
    } else {
      EmptyColumn(g, g.width, top, bottom);
    }
  }

  lemma OneTile(t: Shown)
    ensures Total([t]) == t.sum && Counted([t]) == t.count
  {
    assert [t][..0] == [];
  }

  lemma {:induction false} EmptyColumn(g: Map, at: nat, top: nat, bottom: nat)
    requires at <= g.width && top <= bottom <= g.height
    ensures BlockSum(g, at, at, top, bottom) == 0
    decreases bottom
  {
    if top < bottom { EmptyColumn(g, at, top, bottom - 1); }
  }

  lemma {:induction false} BandsPartition(g: Map, side: nat, top: nat)
    requires side > 0 && top <= g.height
    ensures Total(Tiles(g, side, top)) == BlockSum(g, 0, g.width, top, g.height)
    ensures Counted(Tiles(g, side, top)) == Area(g.width, g.height - top)
    decreases Ahead(top, g.height)
  {
    if top < g.height {
      var bottom := Least(top + side, g.height);
      BandsPartition(g, side, bottom);
      assert Tiles(g, side, top + side) == Tiles(g, side, bottom);
      BandPartition(g, side, 0, top);
      CountsAppend(Band(g, side, 0, top), Tiles(g, side, bottom));
      BlockBelow(g, 0, g.width, top, bottom, g.height);
      AreaBelow(g.width, bottom - top, g.height - bottom);
    }
  }

  lemma {:induction false} WholeBlock(g: Map, bottom: nat)
    requires bottom <= g.height
    ensures bottom * g.width <= |g.pixels|
    ensures BlockSum(g, 0, g.width, 0, bottom) == Sum(g.pixels, 0, bottom * g.width)
    decreases bottom
  {
    if bottom > 0 {
      WholeBlock(g, bottom - 1);
      InMap(g.width, bottom - 1, g.width, g.height);
      assert (bottom - 1) * g.width + g.width == bottom * g.width;
      SumSplit(g.pixels, 0, (bottom - 1) * g.width, bottom * g.width);
    }
  }

  /** Whatever the tile size, the tiles cover each pixel once: counts make up the grid, sums make up the map. */
  lemma TilesPartition(g: Map, side: nat)
    requires side > 0
    ensures Counted(Tiles(g, side, 0)) == g.width * g.height
    ensures Total(Tiles(g, side, 0)) == Sum(g.pixels, 0, |g.pixels|)
  {
    BandsPartition(g, side, 0);
    WholeBlock(g, g.height);
  }
}
