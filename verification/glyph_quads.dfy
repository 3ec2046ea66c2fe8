/** Text::GlyphQuads: the geometry of all glyphs drawn from one texture,
    with its triangle index lists (initGlyphQuads, updatePrimitives). */
module GlyphQuads {
  import opened Geometry
  import opened Fonts

  /** Number of backdrop coordinate slots, one per shadow direction. */
  const BACKDROP_SLOTS: nat := 8

  /** Number of index lists: the foreground's at 0, backdrop slot j's at j+1. */
  const PRIMITIVE_LISTS: nat := 9

  /** Largest coordinate count the index loop triangulates in full. The loop
      compares its counter with the count cast to unsigned short, that is
      the count modulo 65536, so a batch of 65536 or more coordinates has
      only that remainder triangulated (16384 glyphs give empty lists).
      65532 is the largest multiple of 4 the cast leaves unchanged; larger
      batches are outside the model. */
  const MAX_COORDS: nat := 65532

  /** One texture's batch. Quad q occupies coords[4q..4q+4] in the order
      upper-left, lower-left, lower-right, upper-right. */
  datatype GlyphQuads = GlyphQuads(
    texture: TextureId,
    glyphs: seq<Glyph>,
    lineNumbers: seq<nat>,
    coords: seq<Vec2>,
    texcoords: seq<Vec2>,
    colorCoords: seq<Color>,
    primitives: seq<seq<nat>>,
    backdropCoords: seq<seq<Vec2>>)

  /** GlyphQuads::initGlyphQuads: empty arrays, one foreground index list
      plus one per backdrop slot, and eight empty backdrop slots. */
  function InitGlyphQuads(texture: TextureId): (b: GlyphQuads)
    ensures b.texture == texture && |b.glyphs| == 0 && |b.coords| == 0 && |b.texcoords| == 0
    ensures |b.primitives| == 1 + BACKDROP_SLOTS
    ensures forall j :: 0 <= j < |b.primitives| ==> b.primitives[j] == []
    ensures |b.backdropCoords| == BACKDROP_SLOTS
    ensures forall j :: 0 <= j < |b.backdropCoords| ==> b.backdropCoords[j] == []
    ensures WellFormed(b)
  {
    GlyphQuads(texture, [], [], [], [], [], seq(PRIMITIVE_LISTS, _ => []), seq(BACKDROP_SLOTS, _ => []))
  }

  /** Quad q of `cs` is an axis-aligned rectangle in corner order. */
  predicate RectangleAt(cs: seq<Vec2>, q: nat)
    requires 4 * q + 3 < |cs|
  {
    IsRectangle(cs[4 * q], cs[4 * q + 1], cs[4 * q + 2], cs[4 * q + 3])
  }

  predicate AllRectangles(cs: seq<Vec2>) {
    forall q :: 0 <= q < |cs| / 4 ==> RectangleAt(cs, q)
  }

  /** The invariant every batch keeps: four coordinates and four texture
      coordinates per glyph, one line number per glyph, every glyph from
      this texture, every quad a rectangle, nine index lists, eight slots. */
  ghost predicate WellFormed(b: GlyphQuads) {
    && |b.coords| == 4 * |b.glyphs|
    && |b.texcoords| == |b.coords|
    && |b.lineNumbers| == |b.glyphs|
    && |b.primitives| == PRIMITIVE_LISTS
    && |b.backdropCoords| == BACKDROP_SLOTS
    && (forall k :: 0 <= k < |b.glyphs| ==> b.glyphs[k].texture == b.texture)
    && AllRectangles(b.coords)
    && AllRectangles(b.texcoords)
  }

  /** Appends one glyph's quad to the batch (lines 424-457). */
  function AddGlyph(b: GlyphQuads, g: Glyph, lineNumber: nat, quad: seq<Vec2>, texQuad: seq<Vec2>): (r: GlyphQuads)
    requires WellFormed(b) && g.texture == b.texture
    requires |quad| == 4 && IsRectangle(quad[0], quad[1], quad[2], quad[3])
    requires |texQuad| == 4 && IsRectangle(texQuad[0], texQuad[1], texQuad[2], texQuad[3])
    ensures WellFormed(r)
    ensures r.glyphs == b.glyphs + [g] && r.lineNumbers == b.lineNumbers + [lineNumber]
    ensures r.coords == b.coords + quad && r.texcoords == b.texcoords + texQuad
    ensures r.texture == b.texture && r.colorCoords == b.colorCoords
    ensures r.primitives == b.primitives && r.backdropCoords == b.backdropCoords
  {
    var r := b.(glyphs := b.glyphs + [g], lineNumbers := b.lineNumbers + [lineNumber],
                coords := b.coords + quad, texcoords := b.texcoords + texQuad);
    assert forall q :: 0 <= q < |b.coords| / 4 ==> RectangleAt(r.coords, q) by {
      forall q | 0 <= q < |b.coords| / 4 ensures RectangleAt(r.coords, q) {
        assert RectangleAt(b.coords, q);
      }
    }
    assert RectangleAt(r.coords, |b.coords| / 4);
    assert forall q :: 0 <= q < |b.texcoords| / 4 ==> RectangleAt(r.texcoords, q) by {
      forall q | 0 <= q < |b.texcoords| / 4 ensures RectangleAt(r.texcoords, q) {
        assert RectangleAt(b.texcoords, q);
      }
    }
    assert RectangleAt(r.texcoords, |b.texcoords| / 4);
    r
  }

  /** The six corner offsets of a quad's two triangles, {0,1,3} and {1,2,3}. */
  const QuadPattern: seq<nat> := [0, 1, 3, 1, 2, 3]

  /** Number of quads the index loop visits: the loop steps by 4 while the
      counter is below the coordinate count. */
  function QuadsVisited(count: nat): nat {
    (count + 3) / 4
  }

  /** Entry k of an index list: corner QuadPattern[k%6] of quad k/6. */
  function IndexAt(k: nat): nat {
    4 * (k / 6) + QuadPattern[k % 6]
  }

  /** The index list for `count` coordinates: entry k belongs to quad k/6
      and names corner QuadPattern[k%6] of it. */
  function TriangleIndices(count: nat): (r: seq<nat>)
    requires count <= MAX_COORDS
  {
    seq(6 * QuadsVisited(count), k requires 0 <= k => IndexAt(k))
  }

  /** The loop of lines 1848-1857 computing one index list. */
  method BuildIndices(count: nat) returns (indices: seq<nat>)
    requires count <= MAX_COORDS
    ensures |indices| == 6 * QuadsVisited(count)
    ensures forall k :: 0 <= k < |indices| ==> indices[k] == IndexAt(k)
    ensures indices == TriangleIndices(count)
  {
    indices := [];
    var i: nat := 0;
    while i < count
      invariant i % 4 == 0
      invariant i <= count + 3
      invariant |indices| == 6 * (i / 4)
      invariant forall k :: 0 <= k < |indices| ==> indices[k] == IndexAt(k)
    {
      indices := indices + [i, i + 1, i + 3, i + 1, i + 2, i + 3];
      i := i + 4;
    }
  }

  /** When the coordinate count is a multiple of 4, an index list has
      one and a half times as many entries, every one naming an existing
      coordinate of the quad it belongs to, each quad split into the
      triangles {0,1,3} and {1,2,3}. */
  lemma TriangleIndicesShape(count: nat)
    requires count <= MAX_COORDS && count % 4 == 0
    ensures 2 * |TriangleIndices(count)| == 3 * count
    ensures forall k :: 0 <= k < |TriangleIndices(count)| ==> TriangleIndices(count)[k] < count
    ensures forall k :: 0 <= k < |TriangleIndices(count)| ==> TriangleIndices(count)[k] / 4 == k / 6
  {
    var n := count / 4;
    assert QuadsVisited(count) == n;
    var ix := TriangleIndices(count);
    assert |ix| == 6 * n;
    forall k | 0 <= k < |ix| ensures ix[k] < count && ix[k] / 4 == k / 6 {
      IndexInQuad(k, n);
    }
  }

  /** Entry k of an index list over n quads names a corner of quad k/6 < n. */
  lemma IndexInQuad(k: nat, n: nat)
    requires k < 6 * n
    ensures k / 6 < n
    ensures IndexAt(k) < 4 * n
    ensures IndexAt(k) / 4 == k / 6
  {
    var q := k / 6;
    assert k == 6 * q + k % 6;
    assert q < n;
    var p := QuadPattern[k % 6];
    assert p <= 3;
    assert (4 * q + p) / 4 == q;
  }

  /** GlyphQuads::updatePrimitives: every index list, the foreground's and
      the eight backdrop slots' alike, becomes the triangulation of the
      current coordinates; nothing else changes. */
  function UpdatePrimitives(b: GlyphQuads): (r: GlyphQuads)
    requires |b.coords| <= MAX_COORDS
    ensures |r.primitives| == |b.primitives|
    ensures forall j :: 0 <= j < |r.primitives| ==> r.primitives[j] == TriangleIndices(|b.coords|)
    ensures r.(primitives := b.primitives) == b
    ensures WellFormed(b) ==> WellFormed(r)
  {
    b.(primitives := seq(|b.primitives|, _ => TriangleIndices(|b.coords|)))
  }
}
