/** How the text is drawn (lines 1194-1217, 1366-1810): which backdrop
    technique runs, which geometry each draw call uses, in which order,
    and how far each backdrop copy is pushed back in depth. The GL calls
    themselves are reduced to a list of draw calls per pass. */
module RenderStrategy {
  import opened Geometry
  import opened GlyphQuads
  import opened Backdrop

  /** Text::BackdropImplementation; `UnknownImplementation` stands for any
      other value, which the switch sends to its default branch. */
  datatype BackdropImplementation =
    | PolygonOffset
    | NoDepthBuffer
    | DepthRange
    | StencilBuffer
    | DelayedDepthWrites
    | UnknownImplementation

  /** The render routine that runs. */
  datatype Technique =
    | WithPolygonOffset
    | WithNoDepthBuffer
    | WithDepthRange
    | WithStencilBuffer
    | WithDelayedDepthWrites

  /** Lines 1194-1217. */
  function SelectTechnique(t: BackdropType, impl: BackdropImplementation): (r: Technique)
    ensures t == NoBackdrop || impl == DelayedDepthWrites ==> r == WithDelayedDepthWrites
    ensures t != NoBackdrop && impl == UnknownImplementation ==> r == WithPolygonOffset
  {
    if t != NoBackdrop && impl != DelayedDepthWrites then
      match impl
      case PolygonOffset => WithPolygonOffset
      case NoDepthBuffer => WithNoDepthBuffer
      case DepthRange => WithDepthRange
      case StencilBuffer => WithStencilBuffer
      case _ => WithPolygonOffset
    else WithDelayedDepthWrites
  }

  /** The implementation value that names a technique. */
  function ImplementationOf(tech: Technique): BackdropImplementation {
    match tech
    case WithPolygonOffset => PolygonOffset
    case WithNoDepthBuffer => NoDepthBuffer
    case WithDepthRange => DepthRange
    case WithStencilBuffer => StencilBuffer
    case WithDelayedDepthWrites => DelayedDepthWrites
  }

  /** With a backdrop, every recognised implementation selects the
      technique of the same name, and every technique is selected by its
      own name. */
  lemma SelectionRoundTrip(t: BackdropType, impl: BackdropImplementation, tech: Technique)
    requires t != NoBackdrop
    ensures impl != UnknownImplementation ==> ImplementationOf(SelectTechnique(t, impl)) == impl
    ensures SelectTechnique(t, ImplementationOf(tech)) == tech
  {
  }

  // ---------------------------------------------------------------------
  // Draw calls
  // ---------------------------------------------------------------------

  /** What a draw call draws: a backdrop slot or the foreground, either
      through its triangle index list or as plain quads (drawQuads). */
  datatype Target =
    | SlotIndexed(slot: nat)
    | SlotQuads(slot: nat)
    | ForegroundIndexed
    | ForegroundQuads

  /** The depth adjustment in force for a draw call. */
  datatype Shift =
    | Unshifted
    | PolygonOffsetShift(factor: real, units: real)
    | DepthRangeShift(near: real, far: real)

  datatype DrawCall = DrawCall(target: Target, shift: Shift)

  /** The index list an indexed call draws: the foreground's is list 0,
      backdrop slot j's is list j + 1. */
  function PrimitiveListOf(target: Target): nat
    requires target.SlotIndexed? || target.ForegroundIndexed?
  {
    if target.SlotIndexed? then target.slot + 1 else 0
  }

  /** The used slots from `j` on whose backdrop copy is present (a null or
      empty copy is skipped), in ascending order. */
  function FilledSlotsFrom(b: GlyphQuads, t: BackdropType, j: nat): (r: seq<nat>)
    requires t != NoBackdrop && |b.backdropCoords| == BACKDROP_SLOTS
    requires FirstSlot(t) <= j <= SlotEnd(t)
    ensures forall k :: 0 <= k < |r| ==> j <= r[k] && UsesSlot(t, r[k]) && r[k] < BACKDROP_SLOTS && |b.backdropCoords[r[k]]| > 0
    ensures forall k, l :: 0 <= k < l < |r| ==> r[k] < r[l]
    ensures forall s :: j <= s < SlotEnd(t) && |b.backdropCoords[s]| > 0 ==> s in r
    decreases SlotEnd(t) - j
  {
    SlotRangeShape(t);
    if j == SlotEnd(t) then []
    else if |b.backdropCoords[j]| > 0 then [j] + FilledSlotsFrom(b, t, j + 1)
    else FilledSlotsFrom(b, t, j + 1)
  }

  function FilledSlots(b: GlyphQuads, t: BackdropType): seq<nat>
    requires t != NoBackdrop && |b.backdropCoords| == BACKDROP_SLOTS
  {
    FilledSlotsFrom(b, t, FirstSlot(t))
  }

  /** The slots lo, lo+1, ..., hi-1. */
  function SlotsBetween(lo: nat, hi: nat): (r: seq<nat>)
    requires lo <= hi
    ensures |r| == hi - lo && forall k :: 0 <= k < |r| ==> r[k] == lo + k
    decreases hi - lo
  {
    if lo == hi then [] else [lo] + SlotsBetween(lo + 1, hi)
  }

  /** max_backdrop_index - backdrop_index: how many slots, counting this
      one, remain to be drawn. */
  function SlotsRemaining(t: BackdropType, j: nat): nat
    requires t != NoBackdrop && j <= SlotEnd(t)
  {
    SlotEnd(t) - j
  }

  /** The polygon offset multipliers osg::PolygonOffset supplies. */
  datatype RenderParams = RenderParams(drawMode: bv32, factorMultiplier: real, unitsMultiplier: real,
                                       depthTestEnabled: bool, enableDepthWrites: bool)

  /** Line 1522: glPolygonOffset before backdrop slot j. */
  function SlotPolygonOffset(p: RenderParams, t: BackdropType, j: nat): Shift
    requires t != NoBackdrop && j <= SlotEnd(t)
  {
    PolygonOffsetShift(0.1 * p.factorMultiplier, Units(p.unitsMultiplier, SlotsRemaining(t, j)))
  }

  /** The units multiplier times the slots remaining. */
  function Units(m: real, n: nat): real {
    m * (n as real)
  }

  /** Line 1635: glDepthRange before backdrop slot j. */
  function SlotDepthRange(t: BackdropType, j: nat): Shift
    requires t != NoBackdrop && j <= SlotEnd(t)
  {
    var offset := (SlotsRemaining(t, j) as real) * 0.0001;
    DepthRangeShift(offset, 1.0 + offset)
  }

  /** The calls for the backdrop copies of one batch in one pass. */
  function BackdropCalls(b: GlyphQuads, t: BackdropType, tech: Technique, p: RenderParams, asQuads: bool): (r: seq<DrawCall>)
    requires t != NoBackdrop && |b.backdropCoords| == BACKDROP_SLOTS
    ensures |r| == |FilledSlots(b, t)|
    ensures forall k :: 0 <= k < |r| ==> r[k].target == (if asQuads then SlotQuads(FilledSlots(b, t)[k]) else SlotIndexed(FilledSlots(b, t)[k]))
  {
    var fs := FilledSlots(b, t);
    seq(|fs|, k requires 0 <= k < |fs| =>
      var j := fs[k];
      DrawCall(if asQuads then SlotQuads(j) else SlotIndexed(j),
               match tech
               case WithPolygonOffset => SlotPolygonOffset(p, t, j)
               case WithDepthRange => SlotDepthRange(t, j)
               case _ => Unshifted))
  }

  /** drawForegroundText: one call, only when the batch has coordinates. */
  function ForegroundCall(b: GlyphQuads, target: Target, shift: Shift): (r: seq<DrawCall>)
    ensures |r| <= 1
    ensures |r| == 1 <==> |b.coords| > 0
  {
    if |b.coords| > 0 then [DrawCall(target, shift)] else []
  }

  /** The calls of one batch in the visible (colour) pass of a technique. */
  function BatchCalls(b: GlyphQuads, t: BackdropType, tech: Technique, p: RenderParams): (r: seq<DrawCall>)
    requires |b.backdropCoords| == BACKDROP_SLOTS
    ensures |b.coords| > 0 <==> |r| > 0 && r[|r| - 1].target == ForegroundIndexed
    ensures forall k :: 0 <= k < |r| - 1 ==> r[k].target != ForegroundIndexed
    ensures |b.coords| > 0 && tech == WithPolygonOffset ==> r[|r| - 1].shift == PolygonOffsetShift(0.0, 0.0)
    ensures |b.coords| > 0 && tech == WithDepthRange ==> r[|r| - 1].shift == DepthRangeShift(0.0, 1.0)
  {
    var backdrop :=
      if t == NoBackdrop then []
      else BackdropCalls(b, t, tech, p, tech == WithDepthRange || tech == WithStencilBuffer);
    var fgShift :=
      match tech
      case WithPolygonOffset => PolygonOffsetShift(0.0, 0.0)
      case WithDepthRange => DepthRangeShift(0.0, 1.0)
      case _ => Unshifted;
    assert forall k :: 0 <= k < |backdrop| ==> backdrop[k].target.SlotIndexed? || backdrop[k].target.SlotQuads?;
    var fg := ForegroundCall(b, ForegroundIndexed, fgShift);
    assert |b.coords| > 0 ==> fg == [DrawCall(ForegroundIndexed, fgShift)];
    backdrop + fg
  }

  /** The calls of one batch in the stencil technique's mask pass: the
      backdrop copies and the foreground, all as plain quads. */
  function StencilMaskCalls(b: GlyphQuads, t: BackdropType, p: RenderParams): (r: seq<DrawCall>)
    requires t != NoBackdrop && |b.backdropCoords| == BACKDROP_SLOTS
    ensures forall k :: 0 <= k < |r| ==> r[k].shift == Unshifted && (r[k].target.SlotQuads? || r[k].target == ForegroundQuads)
    ensures |b.coords| > 0 <==> |r| > 0 && r[|r| - 1].target == ForegroundQuads
  {
    BackdropCalls(b, t, WithStencilBuffer, p, true) + ForegroundCall(b, ForegroundQuads, Unshifted)
  }

  // ---------------------------------------------------------------------
  // Properties of one batch's calls
  // ---------------------------------------------------------------------

  /** In every technique's colour pass the foreground comes last, after
      every backdrop copy, and is drawn once exactly when there are
      glyph coordinates; the backdrop copies are the filled used slots in
      ascending order, each drawn through its own index list or as quads. */
  lemma ForegroundDrawnLast(b: GlyphQuads, t: BackdropType, tech: Technique, p: RenderParams)
    requires |b.backdropCoords| == BACKDROP_SLOTS
    ensures var r := BatchCalls(b, t, tech, p);
            var nb := if t == NoBackdrop then 0 else |FilledSlots(b, t)|;
            && |r| == nb + (if |b.coords| > 0 then 1 else 0)
            && (forall k :: 0 <= k < nb ==> !r[k].target.ForegroundIndexed? && !r[k].target.ForegroundQuads?)
            && (|b.coords| > 0 ==> r[|r| - 1].target == ForegroundIndexed)
            && (t != NoBackdrop ==> forall k :: 0 <= k < nb ==>
                  (r[k].target.SlotIndexed? || r[k].target.SlotQuads?) && r[k].target.slot == FilledSlots(b, t)[k])
  {
  }

  /** Every index list an indexed call draws exists: list 0 or one of the
      eight backdrop lists. */
  lemma IndexListsInRange(b: GlyphQuads, t: BackdropType, tech: Technique, p: RenderParams)
    requires |b.backdropCoords| == BACKDROP_SLOTS
    ensures var r := BatchCalls(b, t, tech, p);
            forall k :: 0 <= k < |r| && (r[k].target.SlotIndexed? || r[k].target.ForegroundIndexed?) ==>
              PrimitiveListOf(r[k].target) < PRIMITIVE_LISTS
  {
  }

  /** The shift of each call of a batch: the slot's own shift for a
      backdrop copy, the technique's foreground shift last. */
  lemma BatchCallShifts(b: GlyphQuads, t: BackdropType, tech: Technique, p: RenderParams)
    requires t != NoBackdrop && |b.backdropCoords| == BACKDROP_SLOTS
    ensures var r := BatchCalls(b, t, tech, p);
            var fs := FilledSlots(b, t);
            && |r| == |fs| + (if |b.coords| > 0 then 1 else 0)
            && (tech == WithPolygonOffset ==> forall k :: 0 <= k < |fs| ==> r[k].shift == SlotPolygonOffset(p, t, fs[k]))
            && (tech == WithDepthRange ==> forall k :: 0 <= k < |fs| ==> r[k].shift == SlotDepthRange(t, fs[k]))
  {
  }

  /** Polygon offset: with a positive units multiplier each backdrop copy
      gets a positive offset, strictly smaller for each later slot, and the
      foreground gets none, so it lies in front of every copy and earlier
      copies lie behind later ones. */
  lemma PolygonOffsetLayers(b: GlyphQuads, t: BackdropType, p: RenderParams)
    requires t != NoBackdrop && |b.backdropCoords| == BACKDROP_SLOTS && p.unitsMultiplier > 0.0
    ensures var r := BatchCalls(b, t, WithPolygonOffset, p);
            var nb := |FilledSlots(b, t)|;
            && (forall k :: 0 <= k < nb ==> r[k].shift.PolygonOffsetShift? && r[k].shift.units > 0.0)
            && (forall k, l :: 0 <= k < l < nb ==> r[k].shift.units > r[l].shift.units)
            && (|b.coords| > 0 ==> r[|r| - 1].shift == PolygonOffsetShift(0.0, 0.0))
  {
    var fs := FilledSlots(b, t);
    var r := BatchCalls(b, t, WithPolygonOffset, p);
    BatchCallShifts(b, t, WithPolygonOffset, p);
    forall k | 0 <= k < |fs|
      ensures r[k].shift.PolygonOffsetShift? && r[k].shift.units > 0.0
    {
      UnitsOrdered(p, t, fs[k], SlotEnd(t));
    }
    forall k, l | 0 <= k < l < |fs|
      ensures r[k].shift.units > r[l].shift.units
    {
      UnitsOrdered(p, t, fs[k], fs[l]);
    }
  }

  /** A slot drawn earlier gets more polygon offset units than a later
      slot, and every slot gets more than none. */
  lemma UnitsOrdered(p: RenderParams, t: BackdropType, j: nat, j': nat)
    requires t != NoBackdrop && p.unitsMultiplier > 0.0 && j < j' <= SlotEnd(t)
    ensures SlotPolygonOffset(p, t, j).units > 0.0
    ensures j' < SlotEnd(t) ==> SlotPolygonOffset(p, t, j).units > SlotPolygonOffset(p, t, j').units
  {
    MoreRemainingMoreUnits(p.unitsMultiplier, SlotsRemaining(t, j), SlotsRemaining(t, j'));
  }

  lemma MoreRemainingMoreUnits(m: real, a: nat, b: nat)
    requires m > 0.0 && a > b
    ensures Units(m, a) > Units(m, b) >= 0.0
  {
    assert m * (a as real) - m * (b as real) == m * ((a - b) as real);
  }

  /** Depth range: each backdrop copy's range starts a positive distance,
      at most eight steps of 0.0001, behind the foreground's [0, 1], is as
      wide as the foreground's, and earlier copies lie further back. */
  lemma DepthRangeLayers(b: GlyphQuads, t: BackdropType, p: RenderParams)
    requires t != NoBackdrop && |b.backdropCoords| == BACKDROP_SLOTS
    ensures var r := BatchCalls(b, t, WithDepthRange, p);
            var nb := |FilledSlots(b, t)|;
            && (forall k :: 0 <= k < nb ==>
                  r[k].shift.DepthRangeShift? && 0.0 < r[k].shift.near <= 0.0008 && r[k].shift.far - r[k].shift.near == 1.0)
            && (forall k, l :: 0 <= k < l < nb ==> r[k].shift.near > r[l].shift.near)
            && (|b.coords| > 0 ==> r[|r| - 1].shift == DepthRangeShift(0.0, 1.0))
  {
    var fs := FilledSlots(b, t);
    var r := BatchCalls(b, t, WithDepthRange, p);
    BatchCallShifts(b, t, WithDepthRange, p);
    forall k | 0 <= k < |fs|
      ensures r[k].shift.DepthRangeShift? && 0.0 < r[k].shift.near <= 0.0008 && r[k].shift.far - r[k].shift.near == 1.0
    {
      DepthOrdered(t, fs[k], SlotEnd(t));
    }
    forall k, l | 0 <= k < l < |fs|
      ensures r[k].shift.near > r[l].shift.near
    {
      DepthOrdered(t, fs[k], fs[l]);
    }
  }

  /** A slot drawn earlier lies further back than a later slot, and every
      slot lies behind the foreground by at most 0.0008. */
  lemma DepthOrdered(t: BackdropType, j: nat, j': nat)
    requires t != NoBackdrop && j < j' <= SlotEnd(t)
    ensures var d := SlotDepthRange(t, j);
            0.0 < d.near <= 0.0008 && d.far - d.near == 1.0
    ensures j' < SlotEnd(t) ==> SlotDepthRange(t, j).near > SlotDepthRange(t, j').near
  {
    SlotRangeShape(t);
  }

  // ---------------------------------------------------------------------
  // Passes over all batches
  // ---------------------------------------------------------------------

  /** What a pass writes: the visible colour pass, the stencil technique's
      mask pass (colour and depth writes off), or the delayed technique's
      depth-only pass (colour writes off). */
  datatype PassKind = ColorPass | StencilMaskPass | DepthOnlyPass

  datatype Pass = Pass(kind: PassKind, calls: seq<DrawCall>)

  /** Every batch has its eight backdrop slots. */
  predicate SlotsPresent(bs: seq<GlyphQuads>) {
    forall i :: 0 <= i < |bs| ==> |bs[i].backdropCoords| == BACKDROP_SLOTS
  }

  /** The colour-pass calls of all batches, batch after batch. */
  function AllBatchCalls(bs: seq<GlyphQuads>, t: BackdropType, tech: Technique, p: RenderParams): seq<DrawCall>
    requires SlotsPresent(bs)
  {
    if |bs| == 0 then []
    else AllBatchCalls(bs[..|bs| - 1], t, tech, p) + BatchCalls(bs[|bs| - 1], t, tech, p)
  }

  function AllStencilMaskCalls(bs: seq<GlyphQuads>, t: BackdropType, p: RenderParams): seq<DrawCall>
    requires t != NoBackdrop && SlotsPresent(bs)
  {
    if |bs| == 0 then []
    else AllStencilMaskCalls(bs[..|bs| - 1], t, p) + StencilMaskCalls(bs[|bs| - 1], t, p)
  }

  /** Text::drawImplementation's text part (lines 1182-1217): nothing
      without the TEXT draw-mode bit, otherwise the chosen routine's
      passes. Every visible pass draws the same calls, the colour-pass
      calls of all batches under the selected technique. */
  function Render(bs: seq<GlyphQuads>, t: BackdropType, impl: BackdropImplementation, p: RenderParams): (r: seq<Pass>)
    requires SlotsPresent(bs)
    ensures p.drawMode & TEXT == 0 <==> r == []
    ensures r != [] ==> r[|r| - 1].kind != StencilMaskPass
    ensures forall k :: 0 <= k < |r| && r[k].kind != StencilMaskPass ==>
              r[k].calls == AllBatchCalls(bs, t, SelectTechnique(t, impl), p)
  {
    var tech := SelectTechnique(t, impl);
    var colour := Pass(ColorPass, AllBatchCalls(bs, t, tech, p));
    if p.drawMode & TEXT == 0 then []
    else
      match tech
      case WithStencilBuffer => [Pass(StencilMaskPass, AllStencilMaskCalls(bs, t, p)), colour]
      case WithDelayedDepthWrites =>
        if p.depthTestEnabled && p.enableDepthWrites
        then [colour, Pass(DepthOnlyPass, AllBatchCalls(bs, t, tech, p))]
        else [colour]
      case _ => [colour]
  }

  /** With the TEXT bit set, exactly one pass is drawn, except that the
      stencil technique first writes its mask and the delayed technique
      adds a depth-only pass when the depth test is on and depth writes
      are enabled. */
  lemma RenderPasses(bs: seq<GlyphQuads>, t: BackdropType, impl: BackdropImplementation, p: RenderParams)
    requires SlotsPresent(bs) && p.drawMode & TEXT != 0
    ensures var r := Render(bs, t, impl, p);
            var tech := SelectTechnique(t, impl);
            && |r| == (if tech == WithStencilBuffer || (tech == WithDelayedDepthWrites && p.depthTestEnabled && p.enableDepthWrites) then 2 else 1)
            && (tech == WithStencilBuffer ==> r[0].kind == StencilMaskPass && r[1].kind == ColorPass)
            && (tech != WithStencilBuffer ==> r[0].kind == ColorPass)
            && (|r| == 2 && tech != WithStencilBuffer ==> r[1].kind == DepthOnlyPass)
  {
  }

  /** The stencil mask of a batch covers exactly what its colour pass
      draws: the same backdrop slots in the same order, and the foreground
      quads exactly where the foreground is drawn. */
  lemma StencilMaskMatchesColorPass(b: GlyphQuads, t: BackdropType, p: RenderParams)
    requires t != NoBackdrop && |b.backdropCoords| == BACKDROP_SLOTS
    ensures var m := StencilMaskCalls(b, t, p);
            var c := BatchCalls(b, t, WithStencilBuffer, p);
            && |m| == |c|
            && forall k :: 0 <= k < |m| ==>
                 (c[k].target.SlotQuads? ==> m[k].target == c[k].target)
                 && (c[k].target.ForegroundIndexed? <==> m[k].target.ForegroundQuads?)
  {
  }

  // ---------------------------------------------------------------------
  // Backdrop positions feed the draw order
  // ---------------------------------------------------------------------

  lemma {:induction false} AllFilledFrom(b: GlyphQuads, t: BackdropType, j: nat)
    requires t != NoBackdrop && |b.backdropCoords| == BACKDROP_SLOTS
    requires FirstSlot(t) <= j <= SlotEnd(t)
    requires forall s :: j <= s < SlotEnd(t) ==> |b.backdropCoords[s]| > 0
    ensures FilledSlotsFrom(b, t, j) == SlotsBetween(j, SlotEnd(t))
    decreases SlotEnd(t) - j
  {
    SlotRangeShape(t);
    if j < SlotEnd(t) {
      AllFilledFrom(b, t, j + 1);
    }
  }

  /** Once the backdrop positions are computed for text with glyphs, every
      batch with coordinates draws exactly its type's slots, in ascending
      order: all eight for an outline, the type's own slot for a drop
      shadow. */
  lemma PositionedSlotsAllDrawn(bs: seq<GlyphQuads>, t: BackdropType, hOff: real, vOff: real, i: nat)
    requires HasSlots(bs) && t != NoBackdrop && TotalQuads(bs) > 0
    requires i < |bs| && |bs[i].coords| > 0
    ensures var r := ComputeBackdropPositions(bs, t, hOff, vOff);
            FilledSlots(r[i], t) == SlotsBetween(FirstSlot(t), SlotEnd(t))
  {
    var r := ComputeBackdropPositions(bs, t, hOff, vOff);
    SlotRangeShape(t);
    forall s | FirstSlot(t) <= s < SlotEnd(t) ensures |r[i].backdropCoords[s]| > 0 {
      assert UsesSlot(t, s);
      assert SlotHoldsShift(r[i], s, SlotOffset(s, BackdropExtent(bs, hOff, vOff).value));
      assert r[i].coords == bs[i].coords by {
        assert r[i].(backdropCoords := bs[i].backdropCoords) == bs[i];
      }
    }
    AllFilledFrom(r[i], t, FirstSlot(t));
  }
}
