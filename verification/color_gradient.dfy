/** Vertex colours of the colour gradient modes (lines 895-1073, 1356-1364):
    SOLID leaves the colours alone, PER_CHARACTER paints each quad corner
    with the matching corner colour, OVERALL interpolates the four corner
    colours bilinearly over the extent of all glyph coordinates. */
module ColorGradient {
  import opened Wrappers
  import opened Geometry
  import opened GlyphQuads

  /** Text::ColorGradientMode. */
  datatype GradientMode = Solid | PerCharacter | Overall

  /** The four corner colours set by setColorGradientCorners. */
  datatype Gradient = Gradient(topLeft: Color, bottomLeft: Color, bottomRight: Color, topRight: Color)

  // ---------------------------------------------------------------------
  // PER_CHARACTER (lines 1026-1073)
  // ---------------------------------------------------------------------

  /** The colour for corner index `c` of a quad, in the quad's corner order
      upper-left, lower-left, lower-right, upper-right. */
  function CornerColor(g: Gradient, c: nat): Color
    requires c < 4
  {
    match c
    case 0 => g.topLeft
    case 1 => g.bottomLeft
    case 2 => g.bottomRight
    case 3 => g.topRight
  }

  /** The corner colour for a position described geometrically. */
  function ColorAtSide(g: Gradient, left: bool, top: bool): Color {
    if left then (if top then g.topLeft else g.bottomLeft)
    else (if top then g.topRight else g.bottomRight)
  }

  /** One colour per coordinate, chosen by the coordinate's corner index:
      corners 0 and 1 of a quad take a left colour, corners 0 and 3 a top
      colour. */
  function PerCharacterColors(cs: seq<Vec2>, g: Gradient): (r: seq<Color>)
    ensures |r| == |cs|
    ensures forall k :: 0 <= k < |r| ==> r[k] == ColorAtSide(g, k % 4 <= 1, k % 4 == 0 || k % 4 == 3)
  {
    seq(|cs|, k requires 0 <= k < |cs| => CornerColor(g, k % 4))
  }

  /** Quad `q` is an upright rectangle with positive width and height:
      corners 0 and 1 on its left edge, 0 and 3 on its top edge. */
  predicate UprightQuad(cs: seq<Vec2>, q: nat)
    requires 4 * q + 3 < |cs|
  {
    RectangleAt(cs, q) && cs[4 * q].x < cs[4 * q + 2].x && cs[4 * q + 1].y < cs[4 * q].y
  }

  /** Left x and top y of quad `q`, from any two opposite corners. */
  function QuadLeft(cs: seq<Vec2>, q: nat): real
    requires 4 * q + 3 < |cs|
  {
    Min(cs[4 * q + 1].x, cs[4 * q + 3].x)
  }

  function QuadTop(cs: seq<Vec2>, q: nat): real
    requires 4 * q + 3 < |cs|
  {
    Max(cs[4 * q + 1].y, cs[4 * q + 3].y)
  }

  /** Per-character colouring puts each corner colour where its name says:
      a vertex on its quad's left and top edge is top-left coloured, and
      so on, whatever the vertex order. */
  lemma PerCharacterFollowsGeometry(cs: seq<Vec2>, g: Gradient, k: nat)
    requires k < |cs| && |cs| % 4 == 0 && UprightQuad(cs, k / 4)
    ensures PerCharacterColors(cs, g)[k]
            == ColorAtSide(g, cs[k].x == QuadLeft(cs, k / 4), cs[k].y == QuadTop(cs, k / 4))
  {
  }

  // ---------------------------------------------------------------------
  // Bilinear interpolation (lines 1356-1364)
  // ---------------------------------------------------------------------

  /** Text::bilinearInterpolate: the value at (x, y) of the bilinear
      function taking q11 at (x1, y1), q12 at (x1, y2), q21 at (x2, y1) and
      q22 at (x2, y2). */
  function BilinearInterpolate(x1: real, x2: real, y1: real, y2: real, x: real, y: real,
                               q11: real, q12: real, q21: real, q22: real): (r: real)
    requires (x2 - x1) * (y2 - y1) != 0.0
    ensures x == x1 && y == y1 ==> r == q11
    ensures x == x1 && y == y2 ==> r == q12
    ensures x == x2 && y == y1 ==> r == q21
    ensures x == x2 && y == y2 ==> r == q22
  {
    var d := (x2 - x1) * (y2 - y1);
    ScaledBack(q11, x2 - x1, y2 - y1);
    ScaledBack(q12, x2 - x1, y2 - y1);
    ScaledBack(q21, x2 - x1, y2 - y1);
    ScaledBack(q22, x2 - x1, y2 - y1);
    (q11 / d) * (x2 - x) * (y2 - y)
    + (q21 / d) * (x - x1) * (y2 - y)
    + (q12 / d) * (x2 - x) * (y - y1)
    + (q22 / d) * (x - x1) * (y - y1)
  }

  lemma ScaledBack(q: real, a: real, b: real)
    requires a * b != 0.0
    ensures (q / (a * b)) * a * b == q
  {
    assert (q / (a * b)) * a * b == (q / (a * b)) * (a * b);
  }

  lemma NonZeroProduct(a: real, b: real)
    requires a != 0.0 && b != 0.0
    ensures a * b != 0.0
  {
  }

  /** Four equal corner values give that value everywhere. */
  lemma BilinearOfConstant(x1: real, x2: real, y1: real, y2: real, x: real, y: real, q: real)
    requires (x2 - x1) * (y2 - y1) != 0.0
    ensures BilinearInterpolate(x1, x2, y1, y2, x, y, q, q, q, q) == q
  {
    var d := (x2 - x1) * (y2 - y1);
    var c := q / d;
    var a, b, e, f := x2 - x, x - x1, y2 - y, y - y1;
    assert c * a * e + c * b * e + c * a * f + c * b * f == c * ((a + b) * (e + f));
    assert (a + b) * (e + f) == d;
    assert c * d == q;
  }

  // ---------------------------------------------------------------------
  // OVERALL (lines 913-1024)
  // ---------------------------------------------------------------------

  /** The smallest and largest x and y over a set of coordinates. */
  datatype Extent = Extent(minX: real, maxX: real, minY: real, maxY: real)

  predicate NonDegenerate(e: Extent) {
    e.minX < e.maxX && e.minY < e.maxY
  }

  /** Every coordinate of `cs` lies within `e`. */
  predicate Bounds(e: Extent, cs: seq<Vec2>) {
    forall k :: 0 <= k < |cs| ==> e.minX <= cs[k].x <= e.maxX && e.minY <= cs[k].y <= e.maxY
  }

  /** The true extent of `cs`; None when there are no coordinates. */
  function ExtentOf(cs: seq<Vec2>): (r: Option<Extent>)
    ensures r.None? <==> |cs| == 0
    ensures r.Some? ==> Bounds(r.value, cs)
  {
    if |cs| == 0 then None
    else
      var p := cs[|cs| - 1];
      match ExtentOf(cs[..|cs| - 1])
      case None => Some(Extent(p.x, p.x, p.y, p.y))
      case Some(e) => Some(Extent(Min(e.minX, p.x), Max(e.maxX, p.x), Min(e.minY, p.y), Max(e.maxY, p.y)))
  }

  /** Each side of the extent is reached by some coordinate, so no smaller
      extent bounds the coordinates. */
  lemma {:induction false} ExtentAttained(cs: seq<Vec2>)
    requires |cs| > 0
    ensures var e := ExtentOf(cs).value;
            && (exists k :: 0 <= k < |cs| && cs[k].x == e.minX)
            && (exists k :: 0 <= k < |cs| && cs[k].x == e.maxX)
            && (exists k :: 0 <= k < |cs| && cs[k].y == e.minY)
            && (exists k :: 0 <= k < |cs| && cs[k].y == e.maxY)
    decreases |cs|
  {
    var n := |cs| - 1;
    var front := cs[..n];
    if n > 0 {
      ExtentAttained(front);
      assert forall k :: 0 <= k < n ==> front[k] == cs[k];
    } else {
      assert cs[0] == cs[n];
    }
  }

  /** All coordinates of all batches, in batch order. */
  function AllCoords(bs: seq<GlyphQuads>): (r: seq<Vec2>)
    ensures |bs| == 0 ==> r == []
  {
    if |bs| == 0 then [] else AllCoords(bs[..|bs| - 1]) + bs[|bs| - 1].coords
  }

  /** Every coordinate of every batch is among AllCoords. */
  lemma {:induction false} AllCoordsHasEvery(bs: seq<GlyphQuads>, i: nat, k: nat)
    requires i < |bs| && k < |bs[i].coords|
    ensures bs[i].coords[k] in AllCoords(bs)
    decreases |bs|
  {
    var n := |bs| - 1;
    if i < n {
      AllCoordsHasEvery(bs[..n], i, k);
    } else {
      assert AllCoords(bs)[|AllCoords(bs[..n])| + k] == bs[i].coords[k];
    }
  }

  lemma {:induction false} NoCoordsAnywhere(bs: seq<GlyphQuads>)
    requires AllCoords(bs) == []
    ensures forall i :: 0 <= i < |bs| ==> bs[i].coords == []
  {
    forall i | 0 <= i < |bs| ensures bs[i].coords == [] {
      if bs[i].coords != [] {
        AllCoordsHasEvery(bs, i, 0);
      }
    }
  }

  /** One colour channel of the gradient at `p`; the argument order is the
      source's: bottom-left as q11, top-left as q12, bottom-right as q21,
      top-right as q22. */
  function Channel(e: Extent, p: Vec2, bottomLeft: real, topLeft: real, bottomRight: real, topRight: real): real
    requires NonDegenerate(e)
  {
    NonZeroProduct(e.maxX - e.minX, e.maxY - e.minY);
    BilinearInterpolate(e.minX, e.maxX, e.minY, e.maxY, p.x, p.y, bottomLeft, topLeft, bottomRight, topRight)
  }

  /** The overall gradient's colour at `p`. The corners of the extent get
      the colours their names say: smallest x and largest y is top-left,
      and so on. */
  function OverallColor(g: Gradient, e: Extent, p: Vec2): (r: Color)
    requires NonDegenerate(e)
    ensures p == Vec2(e.minX, e.maxY) ==> r == g.topLeft
    ensures p == Vec2(e.minX, e.minY) ==> r == g.bottomLeft
    ensures p == Vec2(e.maxX, e.minY) ==> r == g.bottomRight
    ensures p == Vec2(e.maxX, e.maxY) ==> r == g.topRight
  {
    Color(Channel(e, p, g.bottomLeft.r, g.topLeft.r, g.bottomRight.r, g.topRight.r),
          Channel(e, p, g.bottomLeft.g, g.topLeft.g, g.bottomRight.g, g.topRight.g),
          Channel(e, p, g.bottomLeft.b, g.topLeft.b, g.bottomRight.b, g.topRight.b),
          Channel(e, p, g.bottomLeft.a, g.topLeft.a, g.bottomRight.a, g.topRight.a))
  }

  /** A gradient whose four corners share one colour paints that colour
      everywhere. */
  lemma OverallOfOneColor(c: Color, e: Extent, p: Vec2)
    requires NonDegenerate(e)
    ensures OverallColor(Gradient(c, c, c, c), e, p) == c
  {
    NonZeroProduct(e.maxX - e.minX, e.maxY - e.minY);
    BilinearOfConstant(e.minX, e.maxX, e.minY, e.maxY, p.x, p.y, c.r);
    BilinearOfConstant(e.minX, e.maxX, e.minY, e.maxY, p.x, p.y, c.g);
    BilinearOfConstant(e.minX, e.maxX, e.minY, e.maxY, p.x, p.y, c.b);
    BilinearOfConstant(e.minX, e.maxX, e.minY, e.maxY, p.x, p.y, c.a);
  }

  /** The overall mode can run: there are no coordinates, or their extent
      has positive width and height. */
  predicate OverallDefined(bs: seq<GlyphQuads>) {
    var e := ExtentOf(AllCoords(bs));
    e.Some? ==> NonDegenerate(e.value)
  }

  /** Text::computeColorGradientsOverall, with the extent taken as the true
      minimum and maximum of all coordinates. */
  function ComputeColorGradientsOverall(bs: seq<GlyphQuads>, g: Gradient): (r: seq<GlyphQuads>)
    requires OverallDefined(bs)
    ensures |r| == |bs|
    ensures forall i :: 0 <= i < |r| ==> r[i].(colorCoords := bs[i].colorCoords) == bs[i]
    ensures forall i :: 0 <= i < |r| ==> |r[i].colorCoords| == |bs[i].coords|
  {
    match ExtentOf(AllCoords(bs))
    case None =>
      NoCoordsAnywhere(bs);
      seq(|bs|, i requires 0 <= i < |bs| => bs[i].(colorCoords := []))
    case Some(e) =>
      seq(|bs|, i requires 0 <= i < |bs| =>
        bs[i].(colorCoords := seq(|bs[i].coords|, k requires 0 <= k < |bs[i].coords| => OverallColor(g, e, bs[i].coords[k]))))
  }

  /** Every vertex of the text that sits on a corner of the text's extent
      gets that corner's colour. */
  lemma OverallColorsCorners(bs: seq<GlyphQuads>, g: Gradient, i: nat, k: nat)
    requires OverallDefined(bs) && i < |bs| && k < |bs[i].coords|
    ensures ExtentOf(AllCoords(bs)).Some?
    ensures var e := ExtentOf(AllCoords(bs)).value;
            var p := bs[i].coords[k];
            var c := ComputeColorGradientsOverall(bs, g)[i].colorCoords[k];
            && (p == Vec2(e.minX, e.maxY) ==> c == g.topLeft)
            && (p == Vec2(e.minX, e.minY) ==> c == g.bottomLeft)
            && (p == Vec2(e.maxX, e.minY) ==> c == g.bottomRight)
            && (p == Vec2(e.maxX, e.maxY) ==> c == g.topRight)
  {
    AllCoordsHasEvery(bs, i, k);
  }

  // ---------------------------------------------------------------------
  // Dispatch (lines 895-911)
  // ---------------------------------------------------------------------

  /** Text::computeColorGradientsPerCharacter: every batch's colours are
      resized to its coordinates and set corner by corner. */
  function ComputeColorGradientsPerCharacter(bs: seq<GlyphQuads>, g: Gradient): (r: seq<GlyphQuads>)
    ensures |r| == |bs|
    ensures forall i :: 0 <= i < |r| ==> r[i].(colorCoords := bs[i].colorCoords) == bs[i]
    ensures forall i :: 0 <= i < |r| ==> |r[i].colorCoords| == |bs[i].coords|
    ensures forall i, k :: 0 <= i < |r| && 0 <= k < |r[i].colorCoords| ==>
              r[i].colorCoords[k] == ColorAtSide(g, k % 4 <= 1, k % 4 == 0 || k % 4 == 3)
  {
    seq(|bs|, i requires 0 <= i < |bs| => bs[i].(colorCoords := PerCharacterColors(bs[i].coords, g)))
  }

  /** Text::computeColorGradients. */
  function ComputeColorGradients(bs: seq<GlyphQuads>, mode: GradientMode, g: Gradient): (r: seq<GlyphQuads>)
    requires mode == Overall ==> OverallDefined(bs)
    ensures mode == Solid ==> r == bs
    ensures |r| == |bs|
    ensures forall i :: 0 <= i < |r| ==> r[i].(colorCoords := bs[i].colorCoords) == bs[i]
    ensures mode != Solid ==> forall i :: 0 <= i < |r| ==> |r[i].colorCoords| == |bs[i].coords|
  {
    match mode
    case Solid => bs
    case PerCharacter => ComputeColorGradientsPerCharacter(bs, g)
    case Overall => ComputeColorGradientsOverall(bs, g)
  }

  /** `a` and `b` differ at most in their colours. */
  predicate SameGeometry(a: seq<GlyphQuads>, b: seq<GlyphQuads>) {
    |a| == |b| && forall i :: 0 <= i < |a| ==> a[i].(colorCoords := b[i].colorCoords) == b[i]
  }

  lemma {:induction false} SameGeometrySameCoords(a: seq<GlyphQuads>, b: seq<GlyphQuads>)
    requires SameGeometry(a, b)
    ensures AllCoords(a) == AllCoords(b)
    decreases |a|
  {
    if |a| > 0 {
      var n := |a| - 1;
      assert a[n].coords == b[n].coords by {
        assert a[n].(colorCoords := b[n].colorCoords) == b[n];
      }
      forall i | 0 <= i < n ensures a[..n][i].(colorCoords := b[..n][i].colorCoords) == b[..n][i] {
        assert a[i].(colorCoords := b[i].colorCoords) == b[i];
      }
      SameGeometrySameCoords(a[..n], b[..n]);
    }
  }

  /** The gradient modes other than SOLID overwrite every colour from the
      geometry alone: earlier colours make no difference, so running the
      computation twice, or after another mode, gives the same result. */
  lemma {:induction false} GradientIgnoresPreviousColors(a: seq<GlyphQuads>, b: seq<GlyphQuads>, mode: GradientMode, g: Gradient)
    requires mode != Solid && SameGeometry(a, b)
    requires mode == Overall ==> OverallDefined(a)
    ensures mode == Overall ==> OverallDefined(b)
    ensures ComputeColorGradients(a, mode, g) == ComputeColorGradients(b, mode, g)
  {
    SameGeometrySameCoords(a, b);
    var ra := ComputeColorGradients(a, mode, g);
    var rb := ComputeColorGradients(b, mode, g);
    forall i | 0 <= i < |a| ensures ra[i] == rb[i] {
      assert a[i].(colorCoords := b[i].colorCoords) == b[i];
    }
  }

  /** Computing a gradient twice changes nothing the second time. */
  lemma GradientIdempotent(bs: seq<GlyphQuads>, mode: GradientMode, g: Gradient)
    requires mode == Overall ==> OverallDefined(bs)
    ensures mode == Overall ==> OverallDefined(ComputeColorGradients(bs, mode, g))
    ensures ComputeColorGradients(ComputeColorGradients(bs, mode, g), mode, g) == ComputeColorGradients(bs, mode, g)
  {
    if mode != Solid {
      var r := ComputeColorGradients(bs, mode, g);
      GradientIgnoresPreviousColors(bs, r, mode, g);
    }
  }

  // ---------------------------------------------------------------------
  // The extent as the source seeds it
  // ---------------------------------------------------------------------

  /** FLT_MAX, the largest finite single-precision value. */
  const FLT_MAX: real := 340282346638528859811704183484516925440.0

  /** FLT_MIN, the smallest positive normalised single-precision value
      2^-126; it is not the most negative value. */
  const FLT_MIN: real := 1.0 / 85070591730234615865843651857942052864.0

  /** Lines 916-951 as written: minima start at FLT_MAX, maxima at FLT_MIN,
      and each coordinate replaces a bound it strictly passes. */
  function SeededExtent(cs: seq<Vec2>): (r: Extent)
    ensures r.minX <= FLT_MAX && r.minY <= FLT_MAX && FLT_MIN <= r.maxX && FLT_MIN <= r.maxY
    ensures forall k :: 0 <= k < |cs| ==> r.minX <= cs[k].x <= r.maxX && r.minY <= cs[k].y <= r.maxY
  {
    if |cs| == 0 then Extent(FLT_MAX, FLT_MIN, FLT_MAX, FLT_MIN)
    else
      assert forall k :: 0 <= k < |cs| - 1 ==> cs[..|cs| - 1][k] == cs[k];
      var e := SeededExtent(cs[..|cs| - 1]);
      var p := cs[|cs| - 1];
      Extent(if p.x < e.minX then p.x else e.minX,
             if p.x > e.maxX then p.x else e.maxX,
             if p.y < e.minY then p.y else e.minY,
             if p.y > e.maxY then p.y else e.maxY)
  }

  /** The seeded extent is the true extent clamped by the seeds: its
      maxima never fall below FLT_MIN and its minima never rise above
      FLT_MAX. */
  lemma {:induction false} SeededExtentClamps(cs: seq<Vec2>)
    requires |cs| > 0
    ensures var e := ExtentOf(cs).value;
            SeededExtent(cs) == Extent(Min(FLT_MAX, e.minX), Max(FLT_MIN, e.maxX), Min(FLT_MAX, e.minY), Max(FLT_MIN, e.maxY))
    decreases |cs|
  {
    if |cs| > 1 {
      SeededExtentClamps(cs[..|cs| - 1]);
    }
  }

  /** Text lying wholly at x <= 0 (right-to-left text starts at the origin
      and runs left) gets a maximum x of FLT_MIN, a value no coordinate
      has: the top-right corner of the gradient lies off the text, and the
      right-hand colours never show at full strength. */
  lemma FltMinSeedMissesNegativeText()
    ensures var cs := [Vec2(-20.0, 0.0), Vec2(-20.0, -10.0), Vec2(-5.0, -10.0), Vec2(-5.0, 0.0)];
            && SeededExtent(cs).maxX == FLT_MIN
            && ExtentOf(cs) == Some(Extent(-20.0, -5.0, -10.0, 0.0))
            && SeededExtent(cs) != ExtentOf(cs).value
  {
    var cs := [Vec2(-20.0, 0.0), Vec2(-20.0, -10.0), Vec2(-5.0, -10.0), Vec2(-5.0, 0.0)];
    SeededExtentClamps(cs);
    assert cs[..3] == [Vec2(-20.0, 0.0), Vec2(-20.0, -10.0), Vec2(-5.0, -10.0)];
    assert cs[..3][..2] == [Vec2(-20.0, 0.0), Vec2(-20.0, -10.0)];
    assert cs[..3][..2][..1] == [Vec2(-20.0, 0.0)];
    assert ExtentOf(cs[..3][..2][..1]) == Some(Extent(-20.0, -20.0, 0.0, 0.0));
    assert ExtentOf(cs[..3][..2]) == Some(Extent(-20.0, -20.0, -10.0, 0.0));
    assert ExtentOf(cs[..3]) == Some(Extent(-20.0, -5.0, -10.0, 0.0));
  }
}
