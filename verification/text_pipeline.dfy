/** Text::computeGlyphRepresentation end to end (lines 228-543, 597-603):
    layout, then the backdrop copies, the backdrop and margin growth of
    the box, then the colour gradient. */
module TextPipeline {
  import opened Geometry
  import opened Fonts
  import opened GlyphQuads
  import opened Layout
  import opened Backdrop
  import opened ColorGradient

  /** The Text attributes the passes after layout read. */
  datatype Style = Style(
    backdrop: BackdropType,
    hOffset: real,
    vOffset: real,
    drawMode: bv32,
    margin: real,
    gradientMode: GradientMode,
    gradient: Gradient)

  /** A glyph quad the layout emits with positive width and height is
      upright, and its corner index says which of its sides a vertex lies
      on: corners 0 and 1 on the left edge, corners 0 and 3 on the top
      edge. So the per-character colour of each vertex is the corner
      colour its position names. */
  lemma GlyphQuadCornerSides(s: Settings, g: Glyph, origin: Vec2, gr: Gradient, c: nat)
    requires c < 4
    requires g.width * Wr(s) + 2.0 * HorizQuadMargin(s, g) > 0.0
    requires g.height * Hr(s) + 2.0 * VertQuadMargin(s, g) > 0.0
    ensures var quad := GlyphQuadCoords(s, g, origin);
            && UprightQuad(quad, 0)
            && (quad[c].x == QuadLeft(quad, 0) <==> c <= 1)
            && (quad[c].y == QuadTop(quad, 0) <==> c == 0 || c == 3)
            && PerCharacterColors(quad, gr)[c] == ColorAtSide(gr, quad[c].x == QuadLeft(quad, 0), quad[c].y == QuadTop(quad, 0))
  {
    var quad := GlyphQuadCoords(s, g, origin);
    assert UprightQuad(quad, 0);
  }

  /** The passes after layout (lines 538-539, 601-603) applied to laid-out
      geometry: only the backdrop copies and the colours of the batches
      change, the box grows by the backdrop and the margin, and the line
      count stays. */
  function Finish(g: TextGeometry, style: Style): (r: TextGeometry)
    requires HasSlots(g.batches)
    requires style.gradientMode == Overall ==> OverallDefined(g.batches)
    ensures r.lineCount == g.lineCount
    ensures |r.batches| == |g.batches|
    ensures forall i :: 0 <= i < |r.batches| ==>
              r.batches[i].(backdropCoords := g.batches[i].backdropCoords, colorCoords := g.batches[i].colorCoords) == g.batches[i]
  {
    var positioned := ComputeBackdropPositions(g.batches, style.backdrop, style.hOffset, style.vOffset);
    PositionsKeepCoords(g.batches, positioned);
    var box := ComputeBoundingBoxMargin(
                 ComputeBackdropBoundingBox(g.bbox, g.batches, style.backdrop, style.hOffset, style.vOffset),
                 style.drawMode, style.margin);
    var coloured := ComputeColorGradients(positioned, style.gradientMode, style.gradient);
    assert forall i :: 0 <= i < |coloured| ==> coloured[i].(colorCoords := positioned[i].colorCoords) == positioned[i];
    assert forall i :: 0 <= i < |positioned| ==> positioned[i].(backdropCoords := g.batches[i].backdropCoords) == g.batches[i];
    TextGeometry(coloured, box, g.lineCount)
  }

  /** Text::computeGlyphRepresentation with every pass after layout. */
  function BuildText(font: Font, s: Settings, text: seq<CharCode>, style: Style): (r: TextGeometry)
    requires 4 * |text| <= MAX_COORDS
    requires style.gradientMode == Overall ==> OverallDefined(ComputeGlyphRepresentation(font, s, text).batches)
    ensures r.lineCount == ComputeGlyphRepresentation(font, s, text).lineCount
  {
    var g := ComputeGlyphRepresentation(font, s, text);
    BackdropPositionsKeepWellFormed(g.batches, style.backdrop, style.hOffset, style.vOffset);
    Finish(g, style)
  }

  /** All coordinates depend on the glyph coordinates alone. */
  lemma {:induction false} SameCoordsSameAll(a: seq<GlyphQuads>, b: seq<GlyphQuads>)
    requires |a| == |b| && forall i :: 0 <= i < |a| ==> a[i].coords == b[i].coords
    ensures AllCoords(a) == AllCoords(b)
    decreases |a|
  {
    if |a| > 0 {
      SameCoordsSameAll(a[..|a| - 1], b[..|b| - 1]);
    }
  }

  /** Backdrop positions leave the glyph coordinates, so the overall
      gradient's extent, alone. */
  lemma PositionsKeepCoords(bs: seq<GlyphQuads>, r: seq<GlyphQuads>)
    requires |r| == |bs| && forall i :: 0 <= i < |r| ==> r[i].(backdropCoords := bs[i].backdropCoords) == bs[i]
    ensures forall i :: 0 <= i < |r| ==> r[i].coords == bs[i].coords
    ensures OverallDefined(bs) <==> OverallDefined(r)
  {
    forall i | 0 <= i < |r| ensures r[i].coords == bs[i].coords {
      assert r[i].(backdropCoords := bs[i].backdropCoords) == bs[i];
    }
    SameCoordsSameAll(bs, r);
  }

  /** Some batch has a quad whenever the quads total more than none. */
  lemma {:induction false} SomeBatchHasQuads(bs: seq<GlyphQuads>) returns (i: nat)
    requires TotalQuads(bs) > 0
    ensures i < |bs| && |bs[i].coords| > 0
    decreases |bs|
  {
    var n := |bs| - 1;
    if |bs[n].coords| / 4 > 0 {
      i := n;
    } else {
      i := SomeBatchHasQuads(bs[..n]);
    }
  }

  /** A box holding a point is valid. */
  lemma HoldingBoxValid(bb: BBox, p: Vec2)
    requires Contains(bb, p)
    ensures bb.Valid()
  {
  }

  /** With outward backdrop offsets and a non-negative margin, a box that
      held every glyph corner still holds every glyph corner after the
      passes. */
  lemma FinishCoversGlyphs(g: TextGeometry, style: Style)
    requires HasSlots(g.batches) && BoxCovers(g.bbox, g.batches)
    requires style.gradientMode == Overall ==> OverallDefined(g.batches)
    requires style.margin >= 0.0 && OutwardOffsets(g.batches, style.hOffset, style.vOffset)
    ensures var r := Finish(g, style);
            BoxCovers(r.bbox, r.batches)
  {
    var r := Finish(g, style);
    var grown := ComputeBackdropBoundingBox(g.bbox, g.batches, style.backdrop, style.hOffset, style.vOffset);
    assert r.bbox == ComputeBoundingBoxMargin(grown, style.drawMode, style.margin);
    BackdropBoxGrows(g.bbox, g.batches, style.backdrop, style.hOffset, style.vOffset);
    forall i, k | 0 <= i < |r.batches| && 0 <= k < |r.batches[i].coords|
      ensures Contains(r.bbox, r.batches[i].coords[k])
    {
      assert r.batches[i].(backdropCoords := g.batches[i].backdropCoords, colorCoords := g.batches[i].colorCoords) == g.batches[i];
      var p := g.batches[i].coords[k];
      assert Contains(g.bbox, p);
      MarginGrows(grown, style.drawMode, style.margin, p);
    }
  }

  /** Under the same conditions, when there are glyphs and a backdrop, the
      final box holds every corner of every backdrop copy the type uses. */
  lemma FinishCoversBackdrop(g: TextGeometry, style: Style)
    requires HasSlots(g.batches) && BoxCovers(g.bbox, g.batches)
    requires style.gradientMode == Overall ==> OverallDefined(g.batches)
    requires style.margin >= 0.0 && OutwardOffsets(g.batches, style.hOffset, style.vOffset)
    requires style.backdrop != NoBackdrop && TotalQuads(g.batches) > 0
    ensures var r := Finish(g, style);
            forall i, j, k :: 0 <= i < |r.batches| && 0 <= j < BACKDROP_SLOTS && UsesSlot(style.backdrop, j)
                              && 0 <= k < |r.batches[i].backdropCoords[j]| ==>
              Contains(r.bbox, r.batches[i].backdropCoords[j][k])
  {
    var r := Finish(g, style);
    var t, hOff, vOff := style.backdrop, style.hOffset, style.vOffset;
    var positioned := ComputeBackdropPositions(g.batches, t, hOff, vOff);
    var grown := ComputeBackdropBoundingBox(g.bbox, g.batches, t, hOff, vOff);
    assert r.bbox == ComputeBoundingBoxMargin(grown, style.drawMode, style.margin);
    PositionsKeepCoords(g.batches, positioned);
    assert r.batches == ComputeColorGradients(positioned, style.gradientMode, style.gradient);
    var i0 := SomeBatchHasQuads(g.batches);
    HoldingBoxValid(g.bbox, g.batches[i0].coords[0]);
    BackdropGeometryCovered(g.bbox, g.batches, t, hOff, vOff);
    forall i, j, k | 0 <= i < |r.batches| && 0 <= j < BACKDROP_SLOTS && UsesSlot(t, j) && 0 <= k < |r.batches[i].backdropCoords[j]|
      ensures Contains(r.bbox, r.batches[i].backdropCoords[j][k])
    {
      assert r.batches[i].backdropCoords == positioned[i].backdropCoords by {
        assert r.batches[i].(colorCoords := positioned[i].colorCoords) == positioned[i];
      }
      MarginGrows(grown, style.drawMode, style.margin, positioned[i].backdropCoords[j][k]);
    }
  }

  /** Layout leaves what the later passes need: eight backdrop slots and
      whole quads in every batch, and a box holding every glyph corner.
      So FinishCoversGlyphs and FinishCoversBackdrop apply to every text
      BuildText lays out. */
  lemma LayoutReady(font: Font, s: Settings, text: seq<CharCode>, style: Style)
    requires 4 * |text| <= MAX_COORDS
    requires style.gradientMode == Overall ==> OverallDefined(ComputeGlyphRepresentation(font, s, text).batches)
    ensures var g := ComputeGlyphRepresentation(font, s, text);
            HasSlots(g.batches) && BoxCovers(g.bbox, g.batches)
            && BuildText(font, s, text, style) == Finish(g, style)
  {
    var g := ComputeGlyphRepresentation(font, s, text);
    BackdropPositionsKeepWellFormed(g.batches, style.backdrop, style.hOffset, style.vOffset);
  }

  /** Empty text keeps the zero box (grown by the margin in a box mode)
      and has no batches and no lines. */
  lemma EmptyTextBox(font: Font, s: Settings, style: Style)
    ensures var r := BuildText(font, s, [], style);
            && r.batches == [] && r.lineCount == 0
            && r.bbox == ComputeBoundingBoxMargin(ZeroBox, style.drawMode, style.margin)
  {
  }
}
