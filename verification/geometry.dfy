/** Points, colours and the axis-aligned bounding box the layout grows.
    Coordinates are reals: floating-point rounding is not modelled. */
module Geometry {

  /** A point or offset in the text's local 2D plane (osg::Vec2). Every glyph
      quad lies in the plane z = 0, so 3D coordinates are kept as Vec2. */
  datatype Vec2 = Vec2(x: real, y: real)

  /** An RGBA colour (osg::Vec4). */
  datatype Color = Color(r: real, g: real, b: real, a: real)

  function Add(p: Vec2, q: Vec2): Vec2 {
    Vec2(p.x + q.x, p.y + q.y)
  }

  function Min(a: real, b: real): real { if a <= b then a else b }
  function Max(a: real, b: real): real { if a <= b then b else a }

  /** osg::BoundingBox. `Empty` is the state after init(), whose FLT_MAX and
      -FLT_MAX sentinels make it invalid; `Box` holds explicit extents, which
      need not be valid after a side has been moved by hand. */
  datatype BBox =
    | Empty
    | Box(xMin: real, yMin: real, zMin: real, xMax: real, yMax: real, zMax: real)
  {
    /** BoundingBox::valid(): every max at least its min. */
    predicate Valid() {
      Box? && xMin <= xMax && yMin <= yMax && zMin <= zMax
    }
  }

  /** BoundingBox::set(0,0,0,0,0,0): the box given to empty text. */
  const ZeroBox: BBox := Box(0.0, 0.0, 0.0, 0.0, 0.0, 0.0)

  /** True when the box holds the point (p.x, p.y, 0). */
  predicate Contains(bb: BBox, p: Vec2) {
    bb.Box? && bb.xMin <= p.x <= bb.xMax && bb.yMin <= p.y <= bb.yMax
    && bb.zMin <= 0.0 <= bb.zMax
  }

  /** BoundingBox::expandBy(Vec3(p.x, p.y, 0)). */
  function ExpandBy(bb: BBox, p: Vec2): (r: BBox)
    ensures Contains(r, p)
    ensures forall q :: Contains(bb, q) ==> Contains(r, q)
    ensures bb.Valid() ==> r.Valid()
    ensures r.Box? && (bb.Empty? ==> r.Valid())
  {
    match bb
    case Empty => Box(p.x, p.y, 0.0, p.x, p.y, 0.0)
    case Box(x0, y0, z0, x1, y1, z1) =>
      Box(Min(x0, p.x), Min(y0, p.y), Min(z0, 0.0), Max(x1, p.x), Max(y1, p.y), Max(z1, 0.0))
  }

  /** Four points form an axis-aligned rectangle listed upper-left,
      lower-left, lower-right, upper-right (the glyph quad corner order). */
  predicate IsRectangle(ul: Vec2, ll: Vec2, lr: Vec2, ur: Vec2) {
    ul.x == ll.x && lr.x == ur.x && ul.y == ur.y && ll.y == lr.y
  }

  /** A box holding two opposite corners of a rectangle holds all four. */
  lemma RectangleCoveredByDiagonal(bb: BBox, ul: Vec2, ll: Vec2, lr: Vec2, ur: Vec2)
    requires IsRectangle(ul, ll, lr, ur)
    requires (Contains(bb, ll) && Contains(bb, ur)) || (Contains(bb, ul) && Contains(bb, lr))
    ensures Contains(bb, ul) && Contains(bb, ll) && Contains(bb, lr) && Contains(bb, ur)
  {
  }

  /** The box moved by `d` in x and y. */
  function Translate(bb: BBox, d: Vec2): BBox {
    match bb
    case Empty => Empty
    case Box(x0, y0, z0, x1, y1, z1) => Box(x0 + d.x, y0 + d.y, z0, x1 + d.x, y1 + d.y, z1)
  }

  /** The smallest box holding two boxes. */
  function Hull(a: BBox, b: BBox): BBox {
    match a
    case Empty => b
    case Box(ax0, ay0, az0, ax1, ay1, az1) =>
      match b
      case Empty => a
      case Box(bx0, by0, bz0, bx1, by1, bz1) =>
        Box(Min(ax0, bx0), Min(ay0, by0), Min(az0, bz0), Max(ax1, bx1), Max(ay1, by1), Max(az1, bz1))
  }

  /** Box `a` lies inside box `b` (side by side; an empty box lies anywhere). */
  predicate Within(a: BBox, b: BBox) {
    a.Box? ==> b.Box? && b.xMin <= a.xMin && b.yMin <= a.yMin && b.zMin <= a.zMin
                      && a.xMax <= b.xMax && a.yMax <= b.yMax && a.zMax <= b.zMax
  }
}
