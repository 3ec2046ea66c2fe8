/** Text::computeGlyphRepresentation: lays the text out line by line into
    per-texture quad batches and grows the text's bounding box. */
module Layout {
  import opened Wrappers
  import opened Geometry
  import opened Fonts
  import opened LineBreaker
  import opened GlyphQuads

  // ---------------------------------------------------------------------
  // Alignment (lines 276-373)
  // ---------------------------------------------------------------------

  /** The start cursor of a line moved for the alignment. `endOfLine` is
      the cursor the line breaker left at the line's end, `lineLength` the
      number of characters on the line. */
  function AlignCursor(s: Settings, cursor: Vec2, endOfLine: Vec2, lineLength: nat): (r: Vec2)
    ensures IsHorizontal(s) ==> r.y == cursor.y
    ensures s.layout == Vertical ==> r.x == cursor.x
    ensures s.layout == LeftToRight && s.alignment.h == HLeft ==> r == cursor
    ensures s.layout == RightToLeft && s.alignment.h == HRight ==> r == cursor
    ensures s.layout == Vertical && s.alignment.v in {VTop, VBaseLine} ==> r == cursor
  {
    match s.layout
    case LeftToRight =>
      (match s.alignment.h
       case HLeft => cursor
       case HCenter => Vec2((cursor.x - endOfLine.x) * 0.5, cursor.y)
       case HRight => Vec2(cursor.x - endOfLine.x, cursor.y))
    case RightToLeft =>
      (match s.alignment.h
       case HLeft => Vec2(2.0 * cursor.x - endOfLine.x, cursor.y)
       case HCenter => Vec2(cursor.x + (cursor.x - endOfLine.x) * 0.5, cursor.y)
       case HRight => cursor)
    case Vertical =>
      (match s.alignment.v
       case VTop => cursor
       case VBaseLine => cursor
       case VCenter => Vec2(cursor.x, cursor.y + (cursor.y - endOfLine.y) * 0.5)
       case VBottomBaseLine => Vec2(cursor.x, cursor.y - (lineLength as real) * s.characterHeight)
       case VBottom => Vec2(cursor.x, 2.0 * cursor.y - endOfLine.y))
  }

  /** Which point of a line the horizontal alignment puts on the anchor:
      its start edge (0), its middle (1/2) or its far edge (1), measured
      from the left. */
  function HFraction(h: HAlign): real {
    match h
    case HLeft => 0.0
    case HCenter => 0.5
    case HRight => 1.0
  }

  /** The same for vertical alignment, measured from the top; base-line
      alignments keep the top as well. */
  function VFraction(v: VAlign): real {
    match v
    case VTop => 0.0
    case VBaseLine => 0.0
    case VCenter => 0.5
    case VBottom => 1.0
    case VBottomBaseLine => 0.0
  }

  /** Every alignment formula places the line so that the point the
      alignment names lands on the anchor. Left-to-right lines span
      [x, x + w] and are anchored at x = 0, where every horizontal line
      starts; right-to-left lines span [x - w, x] and vertical lines
      [y - w, y], both anchored at the start cursor. Bottom-base-line in
      vertical layout moves the line up by one character height per
      character. */
  lemma AlignmentAnchorsLine(s: Settings, cursor: Vec2, endOfLine: Vec2, lineLength: nat)
    ensures var r := AlignCursor(s, cursor, endOfLine, lineLength);
            s.layout == LeftToRight && cursor.x == 0.0 ==>
              r.x + HFraction(s.alignment.h) * (endOfLine.x - cursor.x) == 0.0
    ensures var r := AlignCursor(s, cursor, endOfLine, lineLength);
            s.layout == RightToLeft ==>
              (r.x - (cursor.x - endOfLine.x)) + HFraction(s.alignment.h) * (cursor.x - endOfLine.x) == cursor.x
    ensures var r := AlignCursor(s, cursor, endOfLine, lineLength);
            s.layout == Vertical && s.alignment.v != VBottomBaseLine ==>
              r.y - VFraction(s.alignment.v) * (cursor.y - endOfLine.y) == cursor.y
    ensures var r := AlignCursor(s, cursor, endOfLine, lineLength);
            s.layout == Vertical && s.alignment.v == VBottomBaseLine ==>
              cursor.y - r.y == (lineLength as real) * s.characterHeight
  {
  }

  // ---------------------------------------------------------------------
  // Texture batches (the texture -> GlyphQuads map)
  // ---------------------------------------------------------------------

  /** No two batches share a texture. */
  ghost predicate DistinctTextures(bs: seq<GlyphQuads>) {
    forall i, j :: 0 <= i < j < |bs| ==> bs[i].texture != bs[j].texture
  }

  /** Every batch keeps its invariant and textures are distinct. */
  ghost predicate BatchesWellFormed(bs: seq<GlyphQuads>) {
    DistinctTextures(bs) && forall i :: 0 <= i < |bs| ==> WellFormed(bs[i])
  }

  /** The index of the batch for `tex`, if there is one. */
  function FindBatch(bs: seq<GlyphQuads>, tex: TextureId): (r: Option<nat>)
    ensures r.Some? ==> r.value < |bs| && bs[r.value].texture == tex
    ensures r.None? ==> forall i :: 0 <= i < |bs| ==> bs[i].texture != tex
  {
    if |bs| == 0 then None
    else if bs[|bs| - 1].texture == tex then Some(|bs| - 1)
    else FindBatch(bs[..|bs| - 1], tex)
  }

  /** The batch for `tex` as the source's map lookup sees it. */
  function BatchOf(bs: seq<GlyphQuads>, tex: TextureId): Option<GlyphQuads> {
    match FindBatch(bs, tex)
    case Some(i) => Some(bs[i])
    case None => None
  }

  lemma FindBatchUnique(bs: seq<GlyphQuads>, tex: TextureId, i: nat)
    requires DistinctTextures(bs) && i < |bs| && bs[i].texture == tex
    ensures FindBatch(bs, tex) == Some(i)
  {
  }

  /** `_textureGlyphQuadMap[glyph->getTexture()]` followed by the appends
      of lines 424-451: the glyph's texture batch, created empty when
      missing, gains the glyph, its line number, its quad and its texture
      coordinates; every other texture's batch is unchanged. */
  function InsertGlyph(bs: seq<GlyphQuads>, g: Glyph, lineNumber: nat, quad: seq<Vec2>, texQuad: seq<Vec2>): (r: seq<GlyphQuads>)
    requires BatchesWellFormed(bs)
    requires |quad| == 4 && IsRectangle(quad[0], quad[1], quad[2], quad[3])
    requires |texQuad| == 4 && IsRectangle(texQuad[0], texQuad[1], texQuad[2], texQuad[3])
    ensures BatchesWellFormed(r)
    ensures BatchOf(r, g.texture).Some?
    ensures var before := BatchOf(bs, g.texture).GetOr(InitGlyphQuads(g.texture));
            var now := BatchOf(r, g.texture).value;
            now.glyphs == before.glyphs + [g] && now.lineNumbers == before.lineNumbers + [lineNumber]
            && now.coords == before.coords + quad && now.texcoords == before.texcoords + texQuad
    ensures forall t :: t != g.texture ==> BatchOf(r, t) == BatchOf(bs, t)
    ensures |r| == |bs| + (if FindBatch(bs, g.texture).None? then 1 else 0)
    ensures forall i :: 0 <= i < |bs| && bs[i].texture != g.texture ==> r[i] == bs[i]
    ensures forall i :: 0 <= i < |r| && r[i].texture != g.texture ==> i < |bs| && r[i] == bs[i]
  {
    match FindBatch(bs, g.texture)
    case Some(i) =>
      var r := bs[i := AddGlyph(bs[i], g, lineNumber, quad, texQuad)];
      FindBatchUnique(r, g.texture, i);
      forall t | t != g.texture ensures BatchOf(r, t) == BatchOf(bs, t) {
        if FindBatch(r, t).Some? {
          FindBatchUnique(bs, t, FindBatch(r, t).value);
        } else if FindBatch(bs, t).Some? {
          FindBatchUnique(r, t, FindBatch(bs, t).value);
        }
      }
      r
    case None =>
      var r := bs + [AddGlyph(InitGlyphQuads(g.texture), g, lineNumber, quad, texQuad)];
      FindBatchUnique(r, g.texture, |bs|);
      forall t | t != g.texture ensures BatchOf(r, t) == BatchOf(bs, t) {
        if FindBatch(r, t).Some? {
          FindBatchUnique(bs, t, FindBatch(r, t).value);
        }
      }
      r
  }

  /** Total number of glyphs over all batches. */
  function TotalGlyphs(bs: seq<GlyphQuads>): nat {
    if |bs| == 0 then 0 else TotalGlyphs(bs[..|bs| - 1]) + |bs[|bs| - 1].glyphs|
  }

  // ---------------------------------------------------------------------
  // One glyph's quad (lines 417-457)
  // ---------------------------------------------------------------------

  /** One texel of the glyph's texture, as a texture-coordinate margin. */
  function HorizTexMargin(g: Glyph): real { 1.0 / (g.textureWidth as real) }
  function VertTexMargin(g: Glyph): real { 1.0 / (g.textureHeight as real) }

  /** The same margin in quad units: the texel margin scaled by the quad's
      size over its texture-coordinate span, 0 for an empty span. */
  function HorizQuadMargin(s: Settings, g: Glyph): real {
    var span := g.maxTexCoord.x - g.minTexCoord.x;
    if span == 0.0 then 0.0 else g.width * Wr(s) * HorizTexMargin(g) / span
  }

  function VertQuadMargin(s: Settings, g: Glyph): real {
    var span := g.maxTexCoord.y - g.minTexCoord.y;
    if span == 0.0 then 0.0 else g.height * Hr(s) * VertTexMargin(g) / span
  }

  /** Where a glyph drawn with its pen at `pen` has its origin: the pen
      plus the horizontal bearing (horizontal layouts) or the vertical
      bearing, scaled by wr and hr. */
  function GlyphOrigin(s: Settings, g: Glyph, pen: Vec2): Vec2 {
    var bearing := if IsHorizontal(s) then g.horizontalBearing else g.verticalBearing;
    Vec2(pen.x + bearing.x * Wr(s), pen.y + bearing.y * Hr(s))
  }

  /** The glyph's four corners upLeft, lowLeft, lowRight, upRight: the
      scaled glyph box at `origin`, widened by the quad margin all round. */
  function GlyphQuadCoords(s: Settings, g: Glyph, origin: Vec2): (quad: seq<Vec2>)
    ensures |quad| == 4 && IsRectangle(quad[0], quad[1], quad[2], quad[3])
    ensures quad[1] == Vec2(origin.x - HorizQuadMargin(s, g), origin.y - VertQuadMargin(s, g))
    ensures quad[3].x - quad[0].x == g.width * Wr(s) + 2.0 * HorizQuadMargin(s, g)
    ensures quad[0].y - quad[1].y == g.height * Hr(s) + 2.0 * VertQuadMargin(s, g)
  {
    var width := g.width * Wr(s);
    var height := g.height * Hr(s);
    var hm := HorizQuadMargin(s, g);
    var vm := VertQuadMargin(s, g);
    [ Add(origin, Vec2(0.0 - hm, height + vm)),
      Add(origin, Vec2(0.0 - hm, 0.0 - vm)),
      Add(origin, Vec2(width + hm, 0.0 - vm)),
      Add(origin, Vec2(width + hm, height + vm)) ]
  }

  /** The glyph's texture rectangle, one texel larger on every side, in
      the same corner order as its quad. */
  function GlyphTexCoords(g: Glyph): (tq: seq<Vec2>)
    ensures |tq| == 4 && IsRectangle(tq[0], tq[1], tq[2], tq[3])
    ensures tq[1] == Vec2(g.minTexCoord.x - HorizTexMargin(g), g.minTexCoord.y - VertTexMargin(g))
    ensures tq[3] == Vec2(g.maxTexCoord.x + HorizTexMargin(g), g.maxTexCoord.y + VertTexMargin(g))
  {
    var lo := Vec2(g.minTexCoord.x - HorizTexMargin(g), g.minTexCoord.y - VertTexMargin(g));
    var hi := Vec2(g.maxTexCoord.x + HorizTexMargin(g), g.maxTexCoord.y + VertTexMargin(g));
    [Vec2(lo.x, hi.y), lo, Vec2(hi.x, lo.y), hi]
  }

  /** Lines 461-477: the box grows by two opposite corners of the quad,
      chosen by layout direction; since the quad is a rectangle the box
      then holds all four, and everything it held before. */
  function ExpandForGlyph(s: Settings, bb: BBox, quad: seq<Vec2>): (r: BBox)
    requires |quad| == 4 && IsRectangle(quad[0], quad[1], quad[2], quad[3])
    ensures forall j :: 0 <= j < 4 ==> Contains(r, quad[j])
    ensures forall p :: Contains(bb, p) ==> Contains(r, p)
    ensures r.Box? && (bb.Valid() || bb.Empty? ==> r.Valid())
  {
    var r := match s.layout
      case LeftToRight => ExpandBy(ExpandBy(bb, quad[1]), quad[3])
      case Vertical => ExpandBy(ExpandBy(bb, quad[0]), quad[2])
      case RightToLeft => ExpandBy(ExpandBy(bb, quad[2]), quad[0]);
    RectangleCoveredByDiagonal(r, quad[0], quad[1], quad[2], quad[3]);
    r
  }

  /** The box holds every coordinate of every batch. */
  ghost predicate BoxCovers(bb: BBox, bs: seq<GlyphQuads>) {
    forall i, k :: 0 <= i < |bs| && 0 <= k < |bs[i].coords| ==> Contains(bb, bs[i].coords[k])
  }

  /** Every glyph of every batch carries a line number below `n`. */
  ghost predicate LineNumbersBelow(bs: seq<GlyphQuads>, n: nat) {
    forall i, k :: 0 <= i < |bs| && 0 <= k < |bs[i].lineNumbers| ==> bs[i].lineNumbers[k] < n
  }

  /** The layout state while walking a line: cursor, previous character
      code (0 for none), batches and box. */
  datatype Placement = Placement(cursor: Vec2, prev: CharCode, batches: seq<GlyphQuads>, bbox: BBox)

  /** The glyph invariant a placement keeps: well-formed batches, a box
      that covers every quad, and line numbers below `n`. */
  ghost predicate PlacementInv(pl: Placement, n: nat) {
    BatchesWellFormed(pl.batches) && BoxCovers(pl.bbox, pl.batches) && LineNumbersBelow(pl.batches, n)
  }

  /** Lines 383-479 for one found glyph. */
  function PlaceGlyph(font: Font, s: Settings, lineNumber: nat, c: CharCode, g: Glyph, pl: Placement): (r: Placement)
    requires PlacementInv(pl, lineNumber + 1)
    ensures PlacementInv(r, lineNumber + 1)
    ensures TotalGlyphs(r.batches) == TotalGlyphs(pl.batches) + 1
    ensures r.prev == c
    ensures (pl.bbox.Valid() || pl.bbox.Empty?) ==> r.bbox.Valid()
  {
    var pen := PenBeforeGlyph(font, s, pl.prev, c, g, pl.cursor);
    var quad := GlyphQuadCoords(s, g, GlyphOrigin(s, g, pen));
    var bs := InsertGlyph(pl.batches, g, lineNumber, quad, GlyphTexCoords(g));
    var bb := ExpandForGlyph(s, pl.bbox, quad);
    InsertGlyphKeepsInvariant(pl, g, lineNumber, quad, GlyphTexCoords(g), bs, bb);
    Placement(PenAfterGlyph(s, g, pen), c, bs, bb)
  }

  lemma InsertGlyphKeepsInvariant(pl: Placement, g: Glyph, lineNumber: nat, quad: seq<Vec2>, texQuad: seq<Vec2>,
                                  bs: seq<GlyphQuads>, bb: BBox)
    requires PlacementInv(pl, lineNumber + 1)
    requires |quad| == 4 && IsRectangle(quad[0], quad[1], quad[2], quad[3])
    requires |texQuad| == 4 && IsRectangle(texQuad[0], texQuad[1], texQuad[2], texQuad[3])
    requires bs == InsertGlyph(pl.batches, g, lineNumber, quad, texQuad)
    requires (forall j :: 0 <= j < 4 ==> Contains(bb, quad[j])) && (forall p :: Contains(pl.bbox, p) ==> Contains(bb, p))
    ensures BoxCovers(bb, bs) && LineNumbersBelow(bs, lineNumber + 1)
    ensures TotalGlyphs(bs) == TotalGlyphs(pl.batches) + 1
  {
    InsertGlyphCovers(pl.batches, g, lineNumber, quad, texQuad, pl.bbox, bb);
    InsertGlyphLineNumbers(pl.batches, g, lineNumber, quad, texQuad);
    InsertGlyphCount(pl.batches, g, lineNumber, quad, texQuad);
  }

  /** The batch a glyph joins, as it was before (empty when new). */
  function BatchBefore(bs: seq<GlyphQuads>, tex: TextureId): GlyphQuads {
    BatchOf(bs, tex).GetOr(InitGlyphQuads(tex))
  }

  /** What held of every batch held of the batch the glyph joins. */
  lemma BatchBeforeIsExisting(bs: seq<GlyphQuads>, tex: TextureId)
    ensures BatchOf(bs, tex).Some? ==> exists i :: 0 <= i < |bs| && bs[i] == BatchBefore(bs, tex)
    ensures BatchOf(bs, tex).None? ==> BatchBefore(bs, tex) == InitGlyphQuads(tex)
  {
    if BatchOf(bs, tex).Some? {
      assert bs[FindBatch(bs, tex).value] == BatchBefore(bs, tex);
    }
  }

  /** The batch with the glyph's texture is the earlier batch plus the glyph. */
  lemma InsertedBatch(bs: seq<GlyphQuads>, g: Glyph, lineNumber: nat, quad: seq<Vec2>, texQuad: seq<Vec2>, i: nat)
    requires BatchesWellFormed(bs)
    requires |quad| == 4 && IsRectangle(quad[0], quad[1], quad[2], quad[3])
    requires |texQuad| == 4 && IsRectangle(texQuad[0], texQuad[1], texQuad[2], texQuad[3])
    requires i < |InsertGlyph(bs, g, lineNumber, quad, texQuad)|
    requires InsertGlyph(bs, g, lineNumber, quad, texQuad)[i].texture == g.texture
    ensures var b := InsertGlyph(bs, g, lineNumber, quad, texQuad)[i];
            b.coords == BatchBefore(bs, g.texture).coords + quad
            && b.lineNumbers == BatchBefore(bs, g.texture).lineNumbers + [lineNumber]
  {
    FindBatchUnique(InsertGlyph(bs, g, lineNumber, quad, texQuad), g.texture, i);
  }

  /** A box that held every earlier corner and holds the new quad holds
      every corner after the insertion. */
  lemma InsertGlyphCovers(prior: seq<GlyphQuads>, g: Glyph, lineNumber: nat, quad: seq<Vec2>, texQuad: seq<Vec2>,
                          oldBox: BBox, bb: BBox)
    requires BatchesWellFormed(prior) && BoxCovers(oldBox, prior)
    requires |quad| == 4 && IsRectangle(quad[0], quad[1], quad[2], quad[3])
    requires |texQuad| == 4 && IsRectangle(texQuad[0], texQuad[1], texQuad[2], texQuad[3])
    requires (forall j :: 0 <= j < 4 ==> Contains(bb, quad[j])) && (forall p :: Contains(oldBox, p) ==> Contains(bb, p))
    ensures BoxCovers(bb, InsertGlyph(prior, g, lineNumber, quad, texQuad))
  {
    var bs := InsertGlyph(prior, g, lineNumber, quad, texQuad);
    var before := BatchBefore(prior, g.texture);
    BatchBeforeIsExisting(prior, g.texture);
    assert forall k :: 0 <= k < |before.coords| ==> Contains(oldBox, before.coords[k]);
    forall i, k | 0 <= i < |bs| && 0 <= k < |bs[i].coords|
      ensures Contains(bb, bs[i].coords[k])
    {
      if bs[i].texture == g.texture {
        InsertedBatch(prior, g, lineNumber, quad, texQuad, i);
        if k >= |before.coords| {
          assert bs[i].coords[k] == quad[k - |before.coords|];
        }
      }
    }
  }

  /** The new glyph carries the current line number; every other glyph
      keeps its smaller one. */
  lemma InsertGlyphLineNumbers(prior: seq<GlyphQuads>, g: Glyph, lineNumber: nat, quad: seq<Vec2>, texQuad: seq<Vec2>)
    requires BatchesWellFormed(prior) && LineNumbersBelow(prior, lineNumber + 1)
    requires |quad| == 4 && IsRectangle(quad[0], quad[1], quad[2], quad[3])
    requires |texQuad| == 4 && IsRectangle(texQuad[0], texQuad[1], texQuad[2], texQuad[3])
    ensures LineNumbersBelow(InsertGlyph(prior, g, lineNumber, quad, texQuad), lineNumber + 1)
  {
    var bs := InsertGlyph(prior, g, lineNumber, quad, texQuad);
    var before := BatchBefore(prior, g.texture);
    BatchBeforeIsExisting(prior, g.texture);
    assert forall k :: 0 <= k < |before.lineNumbers| ==> before.lineNumbers[k] < lineNumber + 1;
    forall i, k | 0 <= i < |bs| && 0 <= k < |bs[i].lineNumbers|
      ensures bs[i].lineNumbers[k] < lineNumber + 1
    {
      if bs[i].texture == g.texture {
        InsertedBatch(prior, g, lineNumber, quad, texQuad, i);
      }
    }
  }

  /** Inserting adds exactly one glyph in total. */
  lemma InsertGlyphCount(prior: seq<GlyphQuads>, g: Glyph, lineNumber: nat, quad: seq<Vec2>, texQuad: seq<Vec2>)
    requires BatchesWellFormed(prior)
    requires |quad| == 4 && IsRectangle(quad[0], quad[1], quad[2], quad[3])
    requires |texQuad| == 4 && IsRectangle(texQuad[0], texQuad[1], texQuad[2], texQuad[3])
    ensures TotalGlyphs(InsertGlyph(prior, g, lineNumber, quad, texQuad)) == TotalGlyphs(prior) + 1
  {
    var bs := InsertGlyph(prior, g, lineNumber, quad, texQuad);
    match FindBatch(prior, g.texture)
    case Some(i) =>
      assert bs == prior[i := bs[i]];
      TotalGlyphsUpdate(prior, i, bs[i]);
    case None =>
      TotalGlyphsAppend(prior, bs[|prior|]);
      assert bs == prior + [bs[|prior|]];
  }

  lemma {:induction false} TotalGlyphsUpdate(bs: seq<GlyphQuads>, i: nat, b: GlyphQuads)
    requires i < |bs|
    ensures TotalGlyphs(bs[i := b]) + |bs[i].glyphs| == TotalGlyphs(bs) + |b.glyphs|
    decreases |bs|
  {
    var n := |bs| - 1;
    if i < n {
      assert bs[i := b][..n] == bs[..n][i := b];
      TotalGlyphsUpdate(bs[..n], i, b);
    } else {
      assert bs[i := b][..n] == bs[..n];
    }
  }

  lemma TotalGlyphsAppend(bs: seq<GlyphQuads>, b: GlyphQuads)
    ensures TotalGlyphs(bs + [b]) == TotalGlyphs(bs) + |b.glyphs|
  {
    assert (bs + [b])[..|bs|] == bs;
  }

  // ---------------------------------------------------------------------
  // One line (lines 375-490)
  // ---------------------------------------------------------------------

  /** Number of characters in text[i..end] that have a glyph. */
  function CountGlyphs(font: Font, text: seq<CharCode>, i: nat, end: nat): (n: nat)
    requires i <= end <= |text|
    ensures n <= end - i
    decreases end - i
  {
    if i == end then 0
    else (if font.glyphOf(text[i]).Some? then 1 else 0) + CountGlyphs(font, text, i + 1, end)
  }

  /** The box is empty exactly while no glyph has been placed; afterwards
      it is valid. */
  ghost predicate BoxState(bb: BBox, bs: seq<GlyphQuads>) {
    (bb.Empty? && TotalGlyphs(bs) == 0) || (bb.Valid() && TotalGlyphs(bs) > 0)
  }

  /** Lines 378-481: places the glyphs of text[i..end] with line number
      `lineNumber`. Characters without a glyph add nothing and leave the
      cursor where it was. */
  function PlaceLine(font: Font, s: Settings, text: seq<CharCode>, i: nat, end: nat, lineNumber: nat, pl: Placement): (r: Placement)
    requires i <= end <= |text|
    requires PlacementInv(pl, lineNumber + 1)
    requires BoxState(pl.bbox, pl.batches)
    ensures PlacementInv(r, lineNumber + 1)
    ensures BoxState(r.bbox, r.batches)
    ensures TotalGlyphs(r.batches) == TotalGlyphs(pl.batches) + CountGlyphs(font, text, i, end)
    ensures CountGlyphs(font, text, i, end) == 0 ==> r.batches == pl.batches && r.bbox == pl.bbox
    decreases end - i
  {
    if i == end then pl
    else
      match font.glyphOf(text[i])
      case None => PlaceLine(font, s, text, i + 1, end, lineNumber, pl)
      case Some(g) => PlaceLine(font, s, text, i + 1, end, lineNumber, PlaceGlyph(font, s, lineNumber, text[i], g, pl))
  }

  /** Line 484: the position after the spaces starting at `i`. */
  function SkipSpaces(text: seq<CharCode>, i: nat): (j: nat)
    requires i <= |text|
    ensures i <= j <= |text|
    ensures forall k :: i <= k < j ==> text[k] == SPACE
    ensures j == |text| || text[j] != SPACE
    decreases |text| - i
  {
    if i < |text| && text[i] == SPACE then SkipSpaces(text, i + 1) else i
  }

  /** Lines 484-485: skips trailing spaces and then one newline. Every
      skipped character is a space except possibly the last, a newline;
      skipping stops at the end, just after a newline, or at a character
      that is neither a space nor a newline. */
  function SkipLineEnd(text: seq<CharCode>, i: nat): (j: nat)
    requires i <= |text|
    ensures i <= j <= |text|
    ensures forall k :: i <= k < j - 1 ==> text[k] == SPACE
    ensures j > i ==> text[j - 1] == SPACE || text[j - 1] == NEWLINE
    ensures j == |text| || (j > i && text[j - 1] == NEWLINE) || !IsBreakSpace(text[j])
  {
    var sp := SkipSpaces(text, i);
    if sp < |text| && text[sp] == NEWLINE then sp + 1 else sp
  }

  /** How far the line origin moves per line: down by the character height
      times (1 + line spacing) in horizontal layouts, right by the
      character width times the same in vertical layout. */
  function LineAdvance(s: Settings): real {
    if IsHorizontal(s) then s.characterHeight * (1.0 + s.lineSpacing)
    else Wr(s) * (1.0 + s.lineSpacing)
  }

  /** The origin of line n. */
  function LineOrigin(s: Settings, n: nat): Vec2 {
    if IsHorizontal(s) then Vec2(0.0, -((n as real) * LineAdvance(s)))
    else Vec2((n as real) * LineAdvance(s), 0.0)
  }

  /** The state of the outer loop of lines 262-525 at the top of an
      iteration; the cursor there always equals the line origin. */
  datatype LayoutState = LayoutState(
    itr: nat,
    startOfLine: Vec2,
    lineNumber: nat,
    lineCount: nat,
    batches: seq<GlyphQuads>,
    bbox: BBox)

  /** What the outer loop keeps true. */
  ghost predicate LayoutInv(s: Settings, text: seq<CharCode>, st: LayoutState) {
    && st.itr <= |text|
    && BatchesWellFormed(st.batches)
    && BoxCovers(st.bbox, st.batches)
    && BoxState(st.bbox, st.batches)
    && LineNumbersBelow(st.batches, st.lineNumber)
    && TotalGlyphs(st.batches) <= st.itr
    && st.startOfLine == LineOrigin(s, st.lineNumber)
    && (IsHorizontal(s) ==> st.lineCount == st.lineNumber)
  }

  lemma LineNumbersRaise(bs: seq<GlyphQuads>, n: nat, m: nat)
    requires LineNumbersBelow(bs, n) && n <= m
    ensures LineNumbersBelow(bs, m)
  {
  }

  /** One iteration of the outer loop: find the line's end, align, place
      its glyphs, skip what follows it, and move to the next line. */
  function LayoutStep(font: Font, s: Settings, text: seq<CharCode>, st: LayoutState): (r: LayoutState)
    requires st.itr < |text|
    requires LayoutInv(s, text, st)
    ensures LayoutInv(s, text, r)
    ensures st.itr < r.itr
    ensures r.lineNumber == st.lineNumber + 1
    ensures IsHorizontal(s) ==> r.lineCount == st.lineCount + 1
    ensures var e := ComputeLastCharacterOnLine(font, s, text, st.startOfLine, st.itr, |text|).pos;
            && (e == st.itr ==> r.itr == st.itr + 1 && r.batches == st.batches && r.bbox == st.bbox)
            && (e != st.itr ==>
                  (r.itr == SkipLineEnd(text, e)
                   && TotalGlyphs(r.batches) == TotalGlyphs(st.batches) + CountGlyphs(font, text, st.itr, e)))
    ensures var e := ComputeLastCharacterOnLine(font, s, text, st.startOfLine, st.itr, |text|).pos;
            s.layout == Vertical ==>
              r.lineCount >= st.lineCount && r.lineCount >= e - st.itr
              && (r.lineCount == st.lineCount || r.lineCount == e - st.itr)
  {
    var e := ComputeLastCharacterOnLine(font, s, text, st.startOfLine, st.itr, |text|);
    var lineLength := e.pos - st.itr;
    var cursor := AlignCursor(s, st.startOfLine, e.cursor, lineLength);
    LineNumbersRaise(st.batches, st.lineNumber, st.lineNumber + 1);
    var pl := if e.pos != st.itr
              then PlaceLine(font, s, text, st.itr, e.pos, st.lineNumber, Placement(cursor, 0, st.batches, st.bbox))
              else Placement(cursor, 0, st.batches, st.bbox);
    var next := if e.pos != st.itr then SkipLineEnd(text, e.pos) else st.itr + 1;
    var lineCount := if IsHorizontal(s) then st.lineCount + 1
                     else if st.lineCount > lineLength then st.lineCount else lineLength;
    NextLineOrigin(s, st.lineNumber);
    LayoutState(next, LineOrigin(s, st.lineNumber + 1), st.lineNumber + 1, lineCount, pl.batches, pl.bbox)
  }

  /** Lines 498, 506 and 514: moving the line origin by one line advance
      reaches the next line's origin. */
  lemma NextLineOrigin(s: Settings, n: nat)
    ensures IsHorizontal(s) ==> LineOrigin(s, n + 1) == Vec2(LineOrigin(s, n).x, LineOrigin(s, n).y - s.characterHeight * (1.0 + s.lineSpacing))
    ensures !IsHorizontal(s) ==> LineOrigin(s, n + 1) == Vec2(LineOrigin(s, n).x + s.characterHeight / s.aspectRatio * (1.0 + s.lineSpacing), LineOrigin(s, n).y)
  {
    assert ((n + 1) as real) * LineAdvance(s) == (n as real) * LineAdvance(s) + LineAdvance(s);
  }

  /** The outer loop from `st` to the end of the text. Every iteration
      moves strictly forward, so it terminates. */
  function LayoutFrom(font: Font, s: Settings, text: seq<CharCode>, st: LayoutState): (r: LayoutState)
    requires LayoutInv(s, text, st)
    ensures LayoutInv(s, text, r)
    ensures r.itr == |text|
    ensures r.lineNumber >= st.lineNumber
    decreases |text| - st.itr
  {
    if st.itr == |text| then st
    else LayoutFrom(font, s, text, LayoutStep(font, s, text, st))
  }

  /** Lines 245-256: the state before the first line: at the origin, line 0, an empty box. */
  const StartOfText := LayoutState(0, Vec2(0.0, 0.0), 0, 0, [], Empty)

  /** The outer loop over the whole text. */
  function RunLayout(font: Font, s: Settings, text: seq<CharCode>): (r: LayoutState)
    ensures LayoutInv(s, text, r) && r.itr == |text|
  {
    LayoutFrom(font, s, text, StartOfText)
  }

  // ---------------------------------------------------------------------
  // The whole pass (lines 228-543, up to computePositions)
  // ---------------------------------------------------------------------

  /** The geometry a layout pass leaves behind. */
  datatype TextGeometry = TextGeometry(batches: seq<GlyphQuads>, bbox: BBox, lineCount: nat)

  lemma {:induction false} BatchGlyphsWithinTotal(bs: seq<GlyphQuads>, i: nat)
    requires i < |bs|
    ensures |bs[i].glyphs| <= TotalGlyphs(bs)
    decreases |bs|
  {
    if i < |bs| - 1 {
      BatchGlyphsWithinTotal(bs[..|bs| - 1], i);
    }
  }

  /** Lines 527-536: updatePrimitives on every batch. */
  function UpdateAllPrimitives(bs: seq<GlyphQuads>): (r: seq<GlyphQuads>)
    requires forall i :: 0 <= i < |bs| ==> |bs[i].coords| <= MAX_COORDS
    ensures |r| == |bs|
    ensures forall i :: 0 <= i < |r| ==> r[i] == UpdatePrimitives(bs[i])
  {
    seq(|bs|, i requires 0 <= i < |bs| => UpdatePrimitives(bs[i]))
  }

  /** Text::computeGlyphRepresentation up to its final passes. Empty text
      gives no batches, a zero box and no lines. Otherwise every batch is
      well formed, textures are distinct, the box holds every quad corner
      and is valid exactly when some glyph was placed, at most one glyph
      per character was placed, and all nine index lists of a batch
      triangulate its coordinates. */
  function ComputeGlyphRepresentation(font: Font, s: Settings, text: seq<CharCode>): (r: TextGeometry)
    requires 4 * |text| <= MAX_COORDS
    ensures |text| == 0 ==> r == TextGeometry([], ZeroBox, 0)
    ensures |text| > 0 ==> r.bbox == RunLayout(font, s, text).bbox && r.lineCount == RunLayout(font, s, text).lineCount
    ensures BatchesWellFormed(r.batches)
    ensures BoxCovers(r.bbox, r.batches)
    ensures |text| > 0 ==> (r.bbox.Valid() <==> TotalGlyphs(r.batches) > 0)
    ensures TotalGlyphs(r.batches) <= |text|
    ensures forall i :: 0 <= i < |r.batches| ==> |r.batches[i].coords| <= MAX_COORDS
    ensures forall i, j :: 0 <= i < |r.batches| && 0 <= j < |r.batches[i].primitives| ==>
              r.batches[i].primitives[j] == TriangleIndices(|r.batches[i].coords|)
  {
    if |text| == 0 then TextGeometry([], ZeroBox, 0)
    else
      var st := RunLayout(font, s, text);
      forall i | 0 <= i < |st.batches| ensures |st.batches[i].coords| <= MAX_COORDS {
        BatchGlyphsWithinTotal(st.batches, i);
      }
      var bs := UpdateAllPrimitives(st.batches);
      assert TotalGlyphs(bs) == TotalGlyphs(st.batches) by {
        TotalGlyphsSameGlyphs(bs, st.batches);
      }
      TextGeometry(bs, st.bbox, st.lineCount)
  }

  lemma {:induction false} TotalGlyphsSameGlyphs(a: seq<GlyphQuads>, b: seq<GlyphQuads>)
    requires |a| == |b| && forall i :: 0 <= i < |a| ==> a[i].glyphs == b[i].glyphs
    ensures TotalGlyphs(a) == TotalGlyphs(b)
    decreases |a|
  {
    if |a| > 0 {
      TotalGlyphsSameGlyphs(a[..|a| - 1], b[..|b| - 1]);
    }
  }

  // ---------------------------------------------------------------------
  // Line count without wrapping
  // ---------------------------------------------------------------------

  /** Number of newlines in text[i..]. */
  function CountNewlines(text: seq<CharCode>, i: nat): nat
    requires i <= |text|
    decreases |text| - i
  {
    if i == |text| then 0
    else (if text[i] == NEWLINE then 1 else 0) + CountNewlines(text, i + 1)
  }

  /** Lines a horizontal layout without limits produces from position i:
      one per newline, plus one when the text does not end in a newline. */
  function LinesFrom(text: seq<CharCode>, i: nat): nat
    requires i <= |text|
  {
    CountNewlines(text, i) + (if i < |text| && text[|text| - 1] != NEWLINE then 1 else 0)
  }

  lemma {:induction false} NewlinesSkipped(text: seq<CharCode>, i: nat, e: nat)
    requires i <= e <= |text|
    requires forall k :: i <= k < e ==> text[k] != NEWLINE
    ensures CountNewlines(text, i) == CountNewlines(text, e)
    decreases e - i
  {
    if i < e {
      NewlinesSkipped(text, i + 1, e);
    }
  }

  /** A line that ends at the first newline after `i`, or at the end, and
      the skip after it use up exactly one of the lines left. */
  lemma LineUsesOneLine(text: seq<CharCode>, i: nat, e: nat)
    requires i < |text| && i <= e <= |text|
    requires forall k :: i <= k < e ==> text[k] != NEWLINE
    requires e == |text| || text[e] == NEWLINE
    ensures var next := if e != i then SkipLineEnd(text, e) else i + 1;
            next <= |text| && LinesFrom(text, i) == 1 + LinesFrom(text, next)
  {
    NewlinesSkipped(text, i, e);
    if e < |text| {
      assert SkipSpaces(text, e) == e;
    }
  }

  lemma {:induction false} LineCountFrom(font: Font, s: Settings, text: seq<CharCode>, st: LayoutState)
    requires LayoutInv(s, text, st)
    requires IsHorizontal(s) && NoLimits(s)
    ensures LayoutFrom(font, s, text, st).lineCount == st.lineCount + LinesFrom(text, st.itr)
    decreases |text| - st.itr
  {
    if st.itr < |text| {
      var st' := LayoutStep(font, s, text, st);
      assert LayoutFrom(font, s, text, st) == LayoutFrom(font, s, text, st');
      StepUsesOneLine(font, s, text, st);
      LineCountFrom(font, s, text, st');
    }
  }

  /** Without limits, one iteration of the outer loop counts one line and
      uses up one of the lines left. */
  lemma StepUsesOneLine(font: Font, s: Settings, text: seq<CharCode>, st: LayoutState)
    requires LayoutInv(s, text, st) && st.itr < |text|
    requires IsHorizontal(s) && NoLimits(s)
    ensures var r := LayoutStep(font, s, text, st);
            r.lineCount == st.lineCount + 1 && LinesFrom(text, st.itr) == 1 + LinesFrom(text, r.itr)
  {
    var e := ComputeLastCharacterOnLine(font, s, text, st.startOfLine, st.itr, |text|).pos;
    LineUsesOneLine(text, st.itr, e);
  }

  /** The outer loop over the whole text counts the lines LinesFrom
      predicts. */
  lemma LayoutLineCount(font: Font, s: Settings, text: seq<CharCode>)
    requires IsHorizontal(s) && NoLimits(s)
    ensures RunLayout(font, s, text).lineCount == LinesFrom(text, 0)
  {
    StartOfTextInv(s, text);
    LineCountFrom(font, s, text, StartOfText);
  }

  /** The state before the first line satisfies the loop invariant. */
  lemma StartOfTextInv(s: Settings, text: seq<CharCode>)
    ensures LayoutInv(s, text, StartOfText)
  {
    assert LineOrigin(s, 0) == Vec2(0.0, 0.0);
  }

  /** Without a maximum width or height, a horizontal layout has one line
      per newline, plus one unless the text ends in a newline (so "a\n"
      has one line and "" none). */
  lemma {:induction false} LineCountWithoutLimits(font: Font, s: Settings, text: seq<CharCode>)
    requires 4 * |text| <= MAX_COORDS
    requires IsHorizontal(s) && NoLimits(s)
    ensures ComputeGlyphRepresentation(font, s, text).lineCount
         == CountNewlines(text, 0) + (if |text| > 0 && text[|text| - 1] != NEWLINE then 1 else 0)
  {
    if |text| > 0 {
      LayoutLineCount(font, s, text);
    }
  }
}
