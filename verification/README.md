# osgText::Text layout and backdrop core, in Dafny

This project models the core of OpenSceneGraph's `osgText::Text`
(`src/osgText/Text.cpp`). That core turns a string of character codes
into textured glyph quads, grouped into one batch per glyph texture. It
also builds the shadow and outline copies of those quads, grows the
text's bounding box, assigns vertex colours for the colour-gradient
modes, and picks and orders the draw calls of the backdrop rendering
techniques.

The modules follow the structure of the source:

| module | file | what it models |
|---|---|---|
| `Wrappers` | wrappers.dfy | `Option` |
| `Geometry` | geometry.dfy | 2-D points, `osg::BoundingBox` (`Empty` after `init()`, `Box` otherwise), translation and hull |
| `Fonts` | fonts.dfy | glyph metrics, the font as a glyph lookup plus a kerning table, the text settings (`wr`, `hr`, layout, alignment, limits) |
| `LineBreaker` | line_breaker.dfy | `computeLastCharacterOnLine` |
| `GlyphQuads` | glyph_quads.dfy | `Text::GlyphQuads`, `initGlyphQuads`, `updatePrimitives` |
| `Layout` | layout.dfy | `computeGlyphRepresentation` up to the primitive update |
| `Backdrop` | backdrop.dfy | average glyph size, backdrop positions, backdrop bounding box, bounding-box margin |
| `ColorGradient` | color_gradient.dfy | `computeColorGradients*`, `bilinearInterpolate` |
| `RenderStrategy` | render_strategy.dfy | choice of backdrop implementation, draw order, polygon-offset and depth-range layering, the passes of the stencil and delayed-depth-write techniques |
| `TextPipeline` | text_pipeline.dfy | the passes after layout composed in the order `computeGlyphRepresentation` runs them |

Conventions:
- Coordinates are exact reals.
- The texture-to-batch map is a sequence of batches with distinct
  textures, in the order their textures were first used. The layout,
  backdrop and colour passes treat batches independently, or sum,
  minimise or maximise over them, so their results do not depend on that
  order. Draw calls do: they follow the sequence, whereas the source
  walks the map in its key order.
- A draw call is a value naming the geometry drawn (a backdrop slot or
  the foreground, through its index list or as plain quads) and the
  depth adjustment in force. GL state changes are reduced to these calls
  and to the kind of pass they belong to.

For horizontal text without a maximum width or height, the loop at
lines 262-524 counts one line per newline, plus one only when the text
does not end in a newline, and none for empty text;
`Layout.LineCountWithoutLimits` proves this. With a limit, every wrap
adds a line. In vertical layout each line raises the count to its own
length when that is larger (line 518, stated by `Layout.LayoutStep`), so
the count is the length of the longest line.

## Model

| member | source | states |
|---|---|---|
| LineBreaker.PenBeforeGlyph | src/osgText/Text.cpp:124-150 | right-to-left layout steps back by the glyph's advance before kerning; the first character of a line is not kerned; vertical layout is never kerned |
| LineBreaker.PenAfterGlyph | src/osgText/Text.cpp:171-177 | left-to-right moves right by the horizontal advance times wr, vertical moves down by the vertical advance times hr, right-to-left does not move |
| LineBreaker.ScanLine | src/osgText/Text.cpp:109-187 | the forward scan stops at the end, at a newline (which stays unconsumed), or out of space at a character that has a glyph and is out of space at the cursor returned; it never passes a newline; without width and height limits it never runs out of space |
| LineBreaker.ScanLineStopsAtFirstMisfit | src/osgText/Text.cpp:109-180 | every glyph before the stop fits at the pen the layout reaches there, and an out-of-space stop is the first glyph that does not fit, with the cursor at its pen; at a newline or the end the cursor is the pen after the line |
| LineBreaker.Backtrack | src/osgText/Text.cpp:189-224 | the backward walk returns the stop position or a break after the line's first character and at most one past the stop; BacktrackFindsNearestBoundary states which |
| LineBreaker.BacktrackFindsNearestBoundary | src/osgText/Text.cpp:189-224 | the backward walk ends at the nearest word boundary at or before the stop: just after a hyphen, or at a space or newline that follows a non-space. The cursor is backed up over the characters passed. With no boundary the stop position is kept, yet the cursor is backed up over the whole line |
| LineBreaker.BacktrackWithoutBoundary | src/osgText/Text.cpp:189-224 | when no word boundary follows the line's first character, the walk reaches the first character, the stop position stands, and the cursor is backed up over the whole line |
| LineBreaker.BacktrackToBoundary | src/osgText/Text.cpp:193-221 | when q is the last word boundary at or before the stop, the line ends just after q for a hyphen and at q otherwise, with the cursor backed up over the characters from q to the stop |
| LineBreaker.ComputeLastCharacterOnLine | src/osgText/Text.cpp:96-225 | the line end lies in [first, last] and no newline precedes it; a leading newline gives an empty line with the cursor unchanged; without limits the line ends exactly at the first newline or at the end |
| LineBreaker.WrapBreaksAtNearestBoundary | src/osgText/Text.cpp:188-224 | when the scan runs out of space, the line ends at the nearest word boundary, or at the stop position when there is none |
| LineBreaker.VerticalLineBreakIgnoresKerning | src/osgText/Text.cpp:131-151 | in vertical layout the line break and its cursor do not depend on the kerning table |
| GlyphQuads.InitGlyphQuads | src/osgText/Text.cpp:1824-1838 | a new batch has empty arrays, nine empty index lists (foreground plus eight backdrop slots) and eight empty backdrop slots |
| GlyphQuads.AddGlyph | src/osgText/Text.cpp:422-457 | appending a glyph adds its glyph record, line number, four quad corners and four texture coordinates, and keeps every quad a rectangle |
| GlyphQuads.BuildIndices | src/osgText/Text.cpp:1848-1857 | the index loop emits six entries per visited quad, entry k naming corner [0,1,3,1,2,3][k mod 6] of quad k/6 |
| GlyphQuads.TriangleIndicesShape | src/osgText/Text.cpp:1848-1857 | for whole quads an index list has 3/2 as many entries as coordinates, every entry names an existing coordinate, and entry k lies in quad k/6 |
| GlyphQuads.UpdatePrimitives | src/osgText/Text.cpp:1840-1859 | every index list, foreground and backdrop alike, becomes the triangulation of the current coordinates; nothing else changes |
| Layout.AlignCursor | src/osgText/Text.cpp:275-373 | horizontal layouts keep y and vertical keeps x; left alignment in left-to-right, right alignment in right-to-left, and top or base-line alignment in vertical leave the cursor where it is |
| Layout.AlignmentAnchorsLine | src/osgText/Text.cpp:275-373 | every alignment puts the point of the line it names (start, middle, far edge) on the anchor; bottom-base-line in vertical layout moves the line up one character height per character |
| Layout.FindBatch | src/osgText/Text.cpp:422 | the lookup finds a batch with the texture, or proves there is none |
| Layout.InsertGlyph | src/osgText/Text.cpp:422-451 | the glyph's texture batch, created empty when missing, gains the glyph and its quad; every other texture's batch is unchanged and textures stay distinct |
| Layout.InsertGlyphCovers | src/osgText/Text.cpp:422-477 | a box that held every earlier quad corner and holds the new quad holds every corner after the glyph is appended |
| Layout.InsertGlyphLineNumbers | src/osgText/Text.cpp:422-425 | every glyph's line number stays below the next line's number after the glyph is appended |
| Layout.InsertGlyphCount | src/osgText/Text.cpp:422-424 | appending a glyph adds exactly one glyph over all batches |
| Layout.GlyphQuadCoords | src/osgText/Text.cpp:414-447 | the quad is a rectangle whose lower-left corner is the glyph origin less the quad margins, and whose size is the scaled glyph size plus twice the margins |
| Layout.GlyphTexCoords | src/osgText/Text.cpp:426-455 | the texture rectangle is the glyph's, one texel larger on every side, in the quad's corner order |
| Layout.ExpandForGlyph | src/osgText/Text.cpp:460-477 | expanding by two opposite corners leaves the box holding all four corners and everything it held before |
| Layout.PlaceGlyph | src/osgText/Text.cpp:382-479 | placing a glyph adds exactly one glyph, keeps batches well formed and the box covering every quad, and leaves the box valid |
| Layout.PlaceLine | src/osgText/Text.cpp:375-481 | a line adds one glyph per character that has a glyph; characters without one add nothing |
| Layout.SkipLineEnd | src/osgText/Text.cpp:483-485 | after a line, trailing spaces and then at most one newline are skipped, and skipping stops at the first other character |
| Layout.LayoutStep | src/osgText/Text.cpp:262-524 | one outer iteration consumes at least one character, advances the line number by one, and keeps the layout invariant |
| Layout.StartOfTextInv | src/osgText/Text.cpp:245-256 | the state before the first line (origin, line 0, empty box, no batches) satisfies the loop invariant |
| Layout.LayoutFrom | src/osgText/Text.cpp:262-524 | the outer loop from any state satisfying the invariant consumes the rest of the text, keeps the invariant and never lowers the line number |
| Layout.UpdateAllPrimitives | src/osgText/Text.cpp:526-536 | every batch is replaced by its primitive update and no batch is added or dropped |
| Layout.RunLayout | src/osgText/Text.cpp:262-524 | the outer loop consumes the whole text and keeps the loop invariant: well-formed batches, a box covering every quad, line numbers below the current line, the line origin |
| Layout.LineUsesOneLine | src/osgText/Text.cpp:483-523 | a line ending at the first newline or at the end of the text, together with the skip after it, uses up exactly one of the lines left |
| Layout.StepUsesOneLine | src/osgText/Text.cpp:493-523 | without limits, one horizontal iteration counts one line and uses up one line of the text |
| Layout.LayoutLineCount | src/osgText/Text.cpp:262-524 | without limits, the outer loop over a horizontal text counts one line per newline plus one unless the text ends in a newline |
| Layout.ComputeGlyphRepresentation | src/osgText/Text.cpp:228-543 | empty text gives no batches, a zero box and no lines; otherwise batches are well formed with distinct textures, the box covers every quad and is valid exactly when a glyph was placed, and every index list triangulates its batch |
| Layout.LineCountWithoutLimits | src/osgText/Text.cpp:262-524 | without limits, horizontal text has one line per newline plus one unless it ends in a newline |
| Backdrop.ShiftDirection | src/osgText/Text.cpp:673-728 | each slot shifts by a unit step of -1, 0 or 1 in x and y, never by zero, and an index beyond the eight falls back to bottom-right |
| Backdrop.OrdinalSlotMatchesName | src/osgText/Text.cpp:654-728 | a drop shadow's enumerator value, used as a slot index, selects the shift direction its name says |
| Backdrop.SlotRangeShape | src/osgText/Text.cpp:636-656 | an outline uses all eight slots, a drop shadow only the slot of its own value |
| Backdrop.AverageGlyphSize | src/osgText/Text.cpp:549-595 | the average is undefined exactly when there are no quads |
| Backdrop.AverageWithinBounds | src/osgText/Text.cpp:569-592 | the average width and height lie between any lower and upper bounds that every quad's width and height respect |
| Backdrop.UniformGlyphsAverage | src/osgText/Text.cpp:549-595 | when every quad has the same size, that size is the average |
| Backdrop.AverageIgnoresCornerThree | src/osgText/Text.cpp:576-577 | the average reads only the upper-left, lower-left and lower-right corners of each quad |
| Backdrop.BackdropExtent | src/osgText/Text.cpp:622-624 | the backdrop reach is undefined, and the positions are left alone, exactly when there are no quads |
| Backdrop.SlotOffsetIsSourceShift | src/osgText/Text.cpp:729 | a slot's offset is its direction times the offset fraction times the average size |
| Backdrop.ShiftedBack | src/osgText/Text.cpp:729 | shifting a copy back by the negated offset recovers the glyph coordinates |
| Backdrop.ComputeBackdropPositions | src/osgText/Text.cpp:607-734 | without a backdrop or quads nothing changes; otherwise every slot the type uses holds the glyph coordinates moved by that slot's offset, every other slot keeps its contents, and nothing but backdrop slots changes |
| Backdrop.FillSlots | src/osgText/Text.cpp:627-732 | for one batch, every slot the type uses is rebuilt with one vertex per glyph coordinate, the other slots and all other fields are kept |
| Backdrop.BackdropPositionsKeepWellFormed | src/osgText/Text.cpp:607-734 | computing the positions keeps every batch well formed |
| Backdrop.ComputeBackdropBoundingBox | src/osgText/Text.cpp:738-878 | without a backdrop, with an invalid box or without quads the box is unchanged; otherwise exactly the sides the type names move out by the backdrop reach |
| Backdrop.GrowBox | src/osgText/Text.cpp:764-877 | the growth table moves out exactly the sides the type's name says, by the backdrop reach, and keeps z |
| Backdrop.BackdropBoxGrows | src/osgText/Text.cpp:764-877 | with outward offsets the box only grows |
| Backdrop.DropShadowBoxIsHull | src/osgText/Text.cpp:766-859 | with outward offsets a drop shadow's box is the hull of the text box and the text box moved by the shadow's offset |
| Backdrop.OutlineBoxIsHull | src/osgText/Text.cpp:861-871 | the outline box holds the text box moved in each of the eight directions, and is the hull of the bottom-left and top-right copies |
| Backdrop.BackdropGeometryCovered | src/osgText/Text.cpp:607-878 | if the text box covered the glyphs, the grown box covers every backdrop vertex the type uses |
| Backdrop.ComputeBoundingBoxMargin | src/osgText/Text.cpp:881-893 | in a bounding-box draw mode the box grows by the margin on both sides in x and y, keeping its centre and z range; otherwise it is unchanged |
| Backdrop.MarginGrows | src/osgText/Text.cpp:881-893 | a non-negative margin never shrinks the box, so every point it held stays inside |
| ColorGradient.PerCharacterColors | src/osgText/Text.cpp:1041-1064 | one colour per coordinate; vertex k takes a left colour when k mod 4 is 0 or 1 and a top colour when k mod 4 is 0 or 3, so the quad order is top-left, bottom-left, bottom-right, top-right |
| ColorGradient.ComputeColorGradientsPerCharacter | src/osgText/Text.cpp:1026-1073 | every batch's colours are resized to its coordinates and set by corner index in the order top-left, bottom-left, bottom-right, top-right; nothing else changes |
| ColorGradient.PerCharacterFollowsGeometry | src/osgText/Text.cpp:1044-1064 | a vertex on its quad's left and top edges is coloured top-left, and likewise for the other three corners |
| ColorGradient.BilinearInterpolate | src/osgText/Text.cpp:1356-1364 | the interpolation reproduces each corner value at its corner |
| ColorGradient.BilinearOfConstant | src/osgText/Text.cpp:1356-1364 | equal corner values interpolate to that value everywhere |
| ColorGradient.ExtentOf | src/osgText/Text.cpp:916-951 | the extent of the text's coordinates is undefined exactly when there are none, and bounds every coordinate |
| ColorGradient.ExtentAttained | src/osgText/Text.cpp:916-951 | each side of the extent is reached by some coordinate |
| ColorGradient.OverallColor | src/osgText/Text.cpp:966-1017 | the corners of the extent get the colours their names say: smallest x and largest y top-left, and so on |
| ColorGradient.OverallOfOneColor | src/osgText/Text.cpp:969-1021 | a gradient with four equal corners paints that colour everywhere |
| ColorGradient.ComputeColorGradientsOverall | src/osgText/Text.cpp:913-1024 | only the colours change, one per coordinate |
| ColorGradient.OverallColorsCorners | src/osgText/Text.cpp:913-1024 | every vertex on a corner of the text's extent gets that corner's colour |
| ColorGradient.ComputeColorGradients | src/osgText/Text.cpp:895-911 | SOLID changes nothing; the other modes change only the colours and give one per coordinate |
| ColorGradient.GradientIgnoresPreviousColors | src/osgText/Text.cpp:895-1073 | the non-solid modes compute colours from the geometry alone, whatever colours were there before |
| ColorGradient.GradientIdempotent | src/osgText/Text.cpp:895-1073 | computing the gradient again changes nothing |
| ColorGradient.SeededExtent | src/osgText/Text.cpp:916-951 | the extent as the source seeds it bounds every coordinate, with maxima at least FLT_MIN and minima at most FLT_MAX |
| ColorGradient.SeededExtentClamps | src/osgText/Text.cpp:916-951 | the extent as the source seeds it is the true extent with its maxima raised to at least FLT_MIN and its minima lowered to at most FLT_MAX |
| ColorGradient.FltMinSeedMissesNegativeText | src/osgText/Text.cpp:918-919 | for a glyph lying at x <= 0 the seeded maximum x is FLT_MIN, which differs from the true extent |
| RenderStrategy.SelectTechnique | src/osgText/Text.cpp:1194-1217 | without a backdrop, or with delayed depth writes, the delayed technique runs; an unknown implementation falls back to polygon offset |
| RenderStrategy.SelectionRoundTrip | src/osgText/Text.cpp:1194-1217 | with a backdrop, every named implementation selects the technique of the same name, and every technique is selected by its own name |
| RenderStrategy.FilledSlotsFrom | src/osgText/Text.cpp:1454-1464 | the backdrop slots drawn are exactly the used slots whose copy is non-empty, in ascending order |
| RenderStrategy.BackdropCalls | src/osgText/Text.cpp:1454-1464 | one call per filled used slot, drawing that slot |
| RenderStrategy.ForegroundCall | src/osgText/Text.cpp:1366-1387 | the foreground is drawn once exactly when the batch has coordinates |
| RenderStrategy.BatchCalls | src/osgText/Text.cpp:1432-1646 | a batch's colour-pass calls end with the foreground through index list 0 exactly when it has coordinates, no earlier call draws the foreground, and the foreground has no polygon offset and the depth range [0, 1] |
| RenderStrategy.StencilMaskCalls | src/osgText/Text.cpp:1702-1745 | the mask pass draws only plain quads with no depth adjustment, ending with the foreground exactly when the batch has coordinates |
| RenderStrategy.ForegroundDrawnLast | src/osgText/Text.cpp:1432-1475 | per batch, the backdrop copies come first in slot order and the foreground comes last, through index list 0 |
| RenderStrategy.IndexListsInRange | src/osgText/Text.cpp:1462 | every index list drawn exists: slot j draws list j + 1 of nine |
| RenderStrategy.PolygonOffsetLayers | src/osgText/Text.cpp:1478-1530 | with a positive units multiplier every backdrop copy gets positive offset units, strictly fewer for each later slot, and the foreground gets none |
| RenderStrategy.UnitsOrdered | src/osgText/Text.cpp:1522 | an earlier slot gets more offset units than a later one, and more than none |
| RenderStrategy.DepthRangeLayers | src/osgText/Text.cpp:1595-1646 | each backdrop copy's depth range starts behind the foreground's [0, 1] by more than 0 and at most 0.0008, is as wide as it, and earlier slots lie further back |
| RenderStrategy.DepthOrdered | src/osgText/Text.cpp:1635-1636 | an earlier slot's depth range lies further back than a later slot's; each starts more than 0 and at most 0.0008 behind the foreground and is one unit wide |
| RenderStrategy.Render | src/osgText/Text.cpp:1182-1217 | without the TEXT bit nothing is drawn; every pass except the stencil mask draws the selected technique's calls for all batches |
| RenderStrategy.RenderPasses | src/osgText/Text.cpp:1404-1430 | one pass, except that the stencil technique writes its mask first and delayed depth writes adds a depth-only pass when the depth test is on and depth writes are enabled |
| RenderStrategy.StencilMaskMatchesColorPass | src/osgText/Text.cpp:1702-1805 | the stencil mask covers the same backdrop slots, in the same order, as the colour pass, and the foreground exactly when the colour pass draws it |
| RenderStrategy.PositionedSlotsAllDrawn | src/osgText/Text.cpp:1440-1466 | once positions are computed for text with glyphs, every batch with coordinates draws exactly the type's slots in order |
| TextPipeline.GlyphQuadCornerSides | src/osgText/Text.cpp:1044-1064 | a glyph quad of positive size is upright, its corners 0 and 1 lie on its left edge and corners 0 and 3 on its top edge, so each vertex's per-character colour is the one its position names |
| TextPipeline.Finish | src/osgText/Text.cpp:597-603 | the passes after layout change only the backdrop copies and colours of the batches and keep the line count |
| TextPipeline.BuildText | src/osgText/Text.cpp:228-543 | the whole pass keeps the layout's line count |
| TextPipeline.PositionsKeepCoords | src/osgText/Text.cpp:607-734 | backdrop positions leave the glyph coordinates, and so the overall gradient's precondition, unchanged |
| TextPipeline.LayoutReady | src/osgText/Text.cpp:526-539 | layout leaves eight slots and whole quads in every batch and a box covering every glyph, as the later passes need |
| TextPipeline.FinishCoversGlyphs | src/osgText/Text.cpp:597-603 | with outward backdrop offsets and a non-negative margin the final box holds every glyph corner |
| TextPipeline.FinishCoversBackdrop | src/osgText/Text.cpp:601-603 | under the same conditions, with glyphs and a backdrop, the final box holds every backdrop vertex the type uses |
| TextPipeline.EmptyTextBox | src/osgText/Text.cpp:236-241 | empty text has no batches, no lines and the zero box, grown by the margin in a bounding-box mode |

## Left out

- Float arithmetic. Coordinates, sizes and colours are exact reals, so float rounding is not modelled.
- `updatePrimitives`' 16-bit truncation is handled by a precondition, not modelled: a batch holds at most 65532 coordinates. Line 1848 compares the loop counter with the count cast to `unsigned short`, that is the count modulo 65536. A batch of 65536 or more coordinates therefore has only that remainder triangulated; a batch of 16384 glyphs gets empty index lists and draws nothing. 65532 is the largest multiple of 4 the cast leaves unchanged, and batches beyond it are excluded. Text of more than 16383 characters is outside the model.
- The missing-font early returns (lines 99 and 231) are left out. The font is a parameter that is always present.
- `TextBase::computePositionsImplementation`, the matrix and `computeMatrix` are left out. Their source is not part of this model, and all geometry here stays in text-local coordinates.
- `setupDecoration`, the bounding-box and alignment decoration drawing (lines 1111-1177) and `renderOnlyForegroundText` are left out. They do no layout work.
- All GL calls are left out: vertex buffer objects, texture binding, colour pointers, `glPushAttrib`/`glPopAttrib`, stencil function and operation settings, colour and depth masks beyond the pass kind. The GLES and GL3 "not implemented" branches are left out too.
- The backdrop colour and the solid text colour are left out. Draw calls record geometry, not the colour state.
- `accept` functors, `setThreadSafeRefUnref`, `resizeGLObjectBuffers` and `releaseGLObjects` are left out. They hold no layout logic.
- The font size and kerning type are folded into the font's glyph lookup and kerning table.
- ColorGradient.ComputeColorGradientsOverall: requires the text's extent to have positive width and height, because the source divides by the extent's area and a single-column or single-row text would divide by zero.
- ColorGradient.ComputeColorGradientsOverall: uses the true extent rather than the FLT_MIN-seeded one (see Findings).
- ColorGradient.PerCharacterColors: the `default` branch giving opaque black (line 1066) is not modelled, because `i % 4` is always 0 to 3.
- Backdrop.BackdropGeometryCovered: requires at least one quad. Without quads, positions are not recomputed and stale slot contents from an earlier layout could lie anywhere.
- Backdrop.ComputeBoundingBoxMargin: an `Empty` box (text without glyphs) stays `Empty`. In the source the margin moves the FLT_MAX sentinels of an invalid box by a negligible amount, leaving it invalid.
- Backdrop.ComputeBackdropBoundingBox: the unreachable `default` branch is left out.
- RenderStrategy.Render: the depth-test flag is a parameter, since the source reads it from GL state (line 1407). The depth-writes flag is the Text attribute `_enableDepthWrites` (true by default, line 34; read at line 1418), passed in as a parameter.
- RenderStrategy.Render: the polygon-offset multipliers are parameters, since the source gets them from the driver's best guess.

## Findings

| source | as written | input that shows it | evidently intended | confidence | as-written member | corrected member |
|---|---|---|---|---|---|---|
| src/osgText/Text.cpp:918-919 | the maxima of the overall gradient's extent start at FLT_MIN, the smallest positive float, not at the most negative one | a glyph quad with corners (-20, 0), (-20, -10), (-5, -10), (-5, 0), as right-to-left text running left from the origin produces: the maximum x stays FLT_MIN instead of -5 | the maxima start at -FLT_MAX (or at the first coordinate), so the extent is the true extent of the text | not executed | ColorGradient.FltMinSeedMissesNegativeText | ColorGradient.ExtentOf |
