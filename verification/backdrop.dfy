/** Backdrop (drop shadow and outline) geometry: the average glyph size,
    the per-direction shifted copies of the glyph coordinates, and the
    bounding-box growth they cause (lines 549-893). */
module Backdrop {
  import opened Wrappers
  import opened Geometry
  import opened GlyphQuads
  import opened Layout

  /** Text::BackdropType in declaration order. */
  datatype BackdropType =
    | DropShadowBottomRight
    | DropShadowCenterRight
    | DropShadowTopRight
    | DropShadowBottomCenter
    | DropShadowTopCenter
    | DropShadowBottomLeft
    | DropShadowCenterLeft
    | DropShadowTopLeft
    | Outline
    | NoBackdrop

  /** The enumerator's value. Lines 654-655 use it as a slot index. */
  function Ordinal(t: BackdropType): nat {
    match t
    case DropShadowBottomRight => 0
    case DropShadowCenterRight => 1
    case DropShadowTopRight => 2
    case DropShadowBottomCenter => 3
    case DropShadowTopCenter => 4
    case DropShadowBottomLeft => 5
    case DropShadowCenterLeft => 6
    case DropShadowTopLeft => 7
    case Outline => 8
    case NoBackdrop => 9
  }

  predicate IsDropShadow(t: BackdropType) {
    t != Outline && t != NoBackdrop
  }

  /** The horizontal direction a drop shadow's name gives: Right +1,
      Center 0, Left -1. */
  function NamedDx(t: BackdropType): real
    requires IsDropShadow(t)
  {
    match t
    case DropShadowBottomRight | DropShadowCenterRight | DropShadowTopRight => 1.0
    case DropShadowBottomLeft | DropShadowCenterLeft | DropShadowTopLeft => -1.0
    case _ => 0.0
  }

  /** The vertical direction a drop shadow's name gives: Top +1, Center 0,
      Bottom -1. */
  function NamedDy(t: BackdropType): real
    requires IsDropShadow(t)
  {
    match t
    case DropShadowTopRight | DropShadowTopCenter | DropShadowTopLeft => 1.0
    case DropShadowBottomRight | DropShadowBottomCenter | DropShadowBottomLeft => -1.0
    case _ => 0.0
  }

  /** The shift direction of a backdrop slot (lines 673-728); an index
      outside the eight directions falls back to bottom-right. */
  function ShiftDirection(slot: nat): (r: Vec2)
    ensures r.x in {-1.0, 0.0, 1.0} && r.y in {-1.0, 0.0, 1.0} && r != Vec2(0.0, 0.0)
    ensures slot >= BACKDROP_SLOTS ==> r == Vec2(1.0, -1.0)
  {
    match slot
    case 0 => Vec2(1.0, -1.0)
    case 1 => Vec2(1.0, 0.0)
    case 2 => Vec2(1.0, 1.0)
    case 3 => Vec2(0.0, -1.0)
    case 4 => Vec2(0.0, 1.0)
    case 5 => Vec2(-1.0, -1.0)
    case 6 => Vec2(-1.0, 0.0)
    case 7 => Vec2(-1.0, 1.0)
    case _ => Vec2(1.0, -1.0)
  }

  /** Using a drop shadow's ordinal as its slot index picks the direction
      its name says: the slot table and the enumeration agree. */
  lemma OrdinalSlotMatchesName(t: BackdropType)
    requires IsDropShadow(t)
    ensures Ordinal(t) < BACKDROP_SLOTS
    ensures ShiftDirection(Ordinal(t)) == Vec2(NamedDx(t), NamedDy(t))
  {
  }

  /** The first backdrop slot a type uses (lines 636-656). */
  function FirstSlot(t: BackdropType): nat
    requires t != NoBackdrop
  {
    if t == Outline then 0 else Ordinal(t)
  }

  /** One past the last backdrop slot a type uses. */
  function SlotEnd(t: BackdropType): nat
    requires t != NoBackdrop
  {
    if t == Outline then BACKDROP_SLOTS else Ordinal(t) + 1
  }

  /** Outline uses all eight slots, a drop shadow its own slot only. */
  predicate UsesSlot(t: BackdropType, j: nat)
    requires t != NoBackdrop
  {
    FirstSlot(t) <= j < SlotEnd(t)
  }

  lemma SlotRangeShape(t: BackdropType)
    requires t != NoBackdrop
    ensures SlotEnd(t) <= BACKDROP_SLOTS
    ensures t == Outline ==> forall j :: 0 <= j < BACKDROP_SLOTS ==> UsesSlot(t, j)
    ensures t != Outline ==> forall j :: UsesSlot(t, j) <==> j == Ordinal(t)
  {
  }

  // ---------------------------------------------------------------------
  // Average glyph size (lines 549-595)
  // ---------------------------------------------------------------------

  /** Sum of quad widths, right x (corner 2) minus left x (corner 0). */
  function QuadWidthSum(cs: seq<Vec2>): real
    requires |cs| % 4 == 0
    decreases |cs|
  {
    if |cs| == 0 then 0.0 else (cs[2].x - cs[0].x) + QuadWidthSum(cs[4..])
  }

  /** Sum of quad heights, top y (corner 0) minus bottom y (corner 1). */
  function QuadHeightSum(cs: seq<Vec2>): real
    requires |cs| % 4 == 0
    decreases |cs|
  {
    if |cs| == 0 then 0.0 else (cs[0].y - cs[1].y) + QuadHeightSum(cs[4..])
  }

  /** Every batch holds whole quads. */
  predicate WholeQuads(bs: seq<GlyphQuads>) {
    forall i :: 0 <= i < |bs| ==> |bs[i].coords| % 4 == 0
  }

  function TotalQuads(bs: seq<GlyphQuads>): nat {
    if |bs| == 0 then 0 else TotalQuads(bs[..|bs| - 1]) + |bs[|bs| - 1].coords| / 4
  }

  function TotalWidth(bs: seq<GlyphQuads>): real
    requires WholeQuads(bs)
  {
    if |bs| == 0 then 0.0 else TotalWidth(bs[..|bs| - 1]) + QuadWidthSum(bs[|bs| - 1].coords)
  }

  function TotalHeight(bs: seq<GlyphQuads>): real
    requires WholeQuads(bs)
  {
    if |bs| == 0 then 0.0 else TotalHeight(bs[..|bs| - 1]) + QuadHeightSum(bs[|bs| - 1].coords)
  }

  datatype GlyphSize = GlyphSize(width: real, height: real)

  /** Text::computeAverageGlyphWidthAndHeight: None when there are no
      quads (the `false` return), else the mean quad width and height. */
  function AverageGlyphSize(bs: seq<GlyphQuads>): (r: Option<GlyphSize>)
    requires WholeQuads(bs)
    ensures r.None? <==> TotalQuads(bs) == 0
  {
    var n := TotalQuads(bs);
    if n == 0 then None
    else Some(GlyphSize(TotalWidth(bs) / (n as real), TotalHeight(bs) / (n as real)))
  }

  /** Width of quad `q`: corner 2's x minus corner 0's x. */
  function QuadWidth(cs: seq<Vec2>, q: nat): real
    requires 4 * q + 4 <= |cs|
  {
    cs[4 * q + 2].x - cs[4 * q].x
  }

  /** Height of quad `q`: corner 0's y minus corner 1's y. */
  function QuadHeight(cs: seq<Vec2>, q: nat): real
    requires 4 * q + 4 <= |cs|
  {
    cs[4 * q].y - cs[4 * q + 1].y
  }

  /** Every quad of `cs` is `w` wide and `h` high. */
  predicate UniformQuads(cs: seq<Vec2>, w: real, h: real)
    requires |cs| % 4 == 0
  {
    forall q :: 0 <= q < |cs| / 4 ==> QuadWidth(cs, q) == w && QuadHeight(cs, q) == h
  }

  /** `x` added up `n` times. */
  function Repeated(n: nat, x: real): real {
    if n == 0 then 0.0 else Repeated(n - 1, x) + x
  }

  lemma {:induction false} RepeatedAdds(m: nat, n: nat, x: real)
    ensures Repeated(m + n, x) == Repeated(m, x) + Repeated(n, x)
    decreases n
  {
    if n > 0 {
      RepeatedAdds(m, n - 1, x);
    }
  }

  lemma {:induction false} RepeatedIsProduct(n: nat, x: real)
    ensures Repeated(n, x) == (n as real) * x
    decreases n
  {
    if n > 0 {
      RepeatedIsProduct(n - 1, x);
      assert (n as real) * x == ((n - 1) as real) * x + x;
    }
  }

  lemma {:induction false} UniformQuadSums(cs: seq<Vec2>, w: real, h: real)
    requires |cs| % 4 == 0 && UniformQuads(cs, w, h)
    ensures QuadWidthSum(cs) == Repeated(|cs| / 4, w)
    ensures QuadHeightSum(cs) == Repeated(|cs| / 4, h)
    decreases |cs|
  {
    if |cs| > 0 {
      var rest := cs[4..];
      assert QuadWidth(cs, 0) == w && QuadHeight(cs, 0) == h;
      forall q | 0 <= q < |rest| / 4
        ensures QuadWidth(rest, q) == w && QuadHeight(rest, q) == h
      {
        assert QuadWidth(rest, q) == QuadWidth(cs, q + 1);
        assert QuadHeight(rest, q) == QuadHeight(cs, q + 1);
      }
      UniformQuadSums(rest, w, h);
      assert |rest| / 4 == |cs| / 4 - 1;
    }
  }

  lemma {:induction false} UniformTotals(bs: seq<GlyphQuads>, w: real, h: real)
    requires WholeQuads(bs)
    requires forall i :: 0 <= i < |bs| ==> UniformQuads(bs[i].coords, w, h)
    ensures TotalWidth(bs) == Repeated(TotalQuads(bs), w)
    ensures TotalHeight(bs) == Repeated(TotalQuads(bs), h)
    decreases |bs|
  {
    if |bs| > 0 {
      var n := |bs| - 1;
      var front := bs[..n];
      assert forall i :: 0 <= i < |front| ==> front[i] == bs[i];
      UniformTotals(front, w, h);
      UniformQuadSums(bs[n].coords, w, h);
      RepeatedAdds(TotalQuads(front), |bs[n].coords| / 4, w);
      RepeatedAdds(TotalQuads(front), |bs[n].coords| / 4, h);
    }
  }

  /** When every glyph quad has the same size, that size is the average. */
  lemma UniformGlyphsAverage(bs: seq<GlyphQuads>, w: real, h: real)
    requires WholeQuads(bs) && TotalQuads(bs) > 0
    requires forall i :: 0 <= i < |bs| ==> UniformQuads(bs[i].coords, w, h)
    ensures AverageGlyphSize(bs) == Some(GlyphSize(w, h))
  {
    var n := TotalQuads(bs);
    UniformTotals(bs, w, h);
    RepeatedMean(n, w);
    RepeatedMean(n, h);
  }

  lemma RepeatedMean(n: nat, x: real)
    requires n > 0
    ensures Repeated(n, x) / (n as real) == x
  {
    RepeatedIsProduct(n, x);
  }

  /** Every quad of `cs` is between `lo` and `hi` in width and height. */
  predicate QuadsWithin(cs: seq<Vec2>, lo: GlyphSize, hi: GlyphSize)
    requires |cs| % 4 == 0
  {
    forall q :: 0 <= q < |cs| / 4 ==>
      lo.width <= QuadWidth(cs, q) <= hi.width && lo.height <= QuadHeight(cs, q) <= hi.height
  }

  lemma {:induction false} BoundedQuadSums(cs: seq<Vec2>, lo: GlyphSize, hi: GlyphSize)
    requires |cs| % 4 == 0 && QuadsWithin(cs, lo, hi)
    ensures Repeated(|cs| / 4, lo.width) <= QuadWidthSum(cs) <= Repeated(|cs| / 4, hi.width)
    ensures Repeated(|cs| / 4, lo.height) <= QuadHeightSum(cs) <= Repeated(|cs| / 4, hi.height)
    decreases |cs|
  {
    if |cs| > 0 {
      var rest := cs[4..];
      assert QuadWidth(cs, 0) == cs[2].x - cs[0].x && QuadHeight(cs, 0) == cs[0].y - cs[1].y;
      forall q | 0 <= q < |rest| / 4
        ensures lo.width <= QuadWidth(rest, q) <= hi.width && lo.height <= QuadHeight(rest, q) <= hi.height
      {
        assert QuadWidth(rest, q) == QuadWidth(cs, q + 1);
        assert QuadHeight(rest, q) == QuadHeight(cs, q + 1);
      }
      BoundedQuadSums(rest, lo, hi);
      assert |rest| / 4 == |cs| / 4 - 1;
    }
  }

  lemma {:induction false} BoundedTotals(bs: seq<GlyphQuads>, lo: GlyphSize, hi: GlyphSize)
    requires WholeQuads(bs)
    requires forall i :: 0 <= i < |bs| ==> QuadsWithin(bs[i].coords, lo, hi)
    ensures Repeated(TotalQuads(bs), lo.width) <= TotalWidth(bs) <= Repeated(TotalQuads(bs), hi.width)
    ensures Repeated(TotalQuads(bs), lo.height) <= TotalHeight(bs) <= Repeated(TotalQuads(bs), hi.height)
    decreases |bs|
  {
    if |bs| > 0 {
      var n := |bs| - 1;
      var front := bs[..n];
      assert forall i :: 0 <= i < |front| ==> front[i] == bs[i];
      BoundedTotals(front, lo, hi);
      BoundedQuadSums(bs[n].coords, lo, hi);
      var m, k := TotalQuads(front), |bs[n].coords| / 4;
      RepeatedAdds(m, k, lo.width);
      RepeatedAdds(m, k, hi.width);
      RepeatedAdds(m, k, lo.height);
      RepeatedAdds(m, k, hi.height);
    }
  }

  /** A total between n copies of `lo` and n copies of `hi` has its mean
      between `lo` and `hi`. */
  lemma MeanBetween(n: nat, total: real, lo: real, hi: real)
    requires n > 0 && Repeated(n, lo) <= total <= Repeated(n, hi)
    ensures lo <= total / (n as real) <= hi
  {
    RepeatedIsProduct(n, lo);
    RepeatedIsProduct(n, hi);
    var m := n as real;
    var mean := total / m;
    assert mean * m == total;
    ScalingKeepsOrder(lo, mean, m);
    ScalingKeepsOrder(mean, hi, m);
  }

  lemma ScalingKeepsOrder(x: real, y: real, m: real)
    requires m > 0.0
    ensures x <= y <==> x * m <= y * m
  {
    assert y * m - x * m == (y - x) * m;
  }

  /** The average glyph size lies between the smallest and the largest
      quad: bounds that hold for every quad hold for the average. */
  lemma AverageWithinBounds(bs: seq<GlyphQuads>, lo: GlyphSize, hi: GlyphSize)
    requires WholeQuads(bs) && TotalQuads(bs) > 0
    requires forall i :: 0 <= i < |bs| ==> QuadsWithin(bs[i].coords, lo, hi)
    ensures var avg := AverageGlyphSize(bs).value;
            lo.width <= avg.width <= hi.width && lo.height <= avg.height <= hi.height
  {
    var n := TotalQuads(bs);
    BoundedTotals(bs, lo, hi);
    MeanBetween(n, TotalWidth(bs), lo.width, hi.width);
    MeanBetween(n, TotalHeight(bs), lo.height, hi.height);
  }

  /** `a` and `b` have the same quad count and agree on corners 0, 1 and 2
      of every quad (corner 3 may differ). */
  predicate SameMeasuredCorners(a: seq<Vec2>, b: seq<Vec2>) {
    |a| == |b| && forall k :: 0 <= k < |a| && k % 4 != 3 ==> a[k] == b[k]
  }

  lemma {:induction false} QuadSumsIgnoreCornerThree(a: seq<Vec2>, b: seq<Vec2>)
    requires |a| % 4 == 0 && SameMeasuredCorners(a, b)
    ensures QuadWidthSum(a) == QuadWidthSum(b) && QuadHeightSum(a) == QuadHeightSum(b)
    decreases |a|
  {
    if |a| > 0 {
      assert a[0] == b[0] && a[1] == b[1] && a[2] == b[2];
      assert forall k :: 0 <= k < |a| - 4 && k % 4 != 3 ==> a[4..][k] == a[k + 4] && b[4..][k] == b[k + 4];
      QuadSumsIgnoreCornerThree(a[4..], b[4..]);
    }
  }

  lemma {:induction false} TotalsIgnoreCornerThree(a: seq<GlyphQuads>, b: seq<GlyphQuads>)
    requires WholeQuads(a) && |a| == |b|
    requires forall i :: 0 <= i < |a| ==> SameMeasuredCorners(a[i].coords, b[i].coords)
    ensures WholeQuads(b)
    ensures TotalQuads(a) == TotalQuads(b)
    ensures TotalWidth(a) == TotalWidth(b) && TotalHeight(a) == TotalHeight(b)
    decreases |a|
  {
    if |a| > 0 {
      var n := |a| - 1;
      assert forall i :: 0 <= i < n ==> a[..n][i] == a[i] && b[..n][i] == b[i];
      TotalsIgnoreCornerThree(a[..n], b[..n]);
      QuadSumsIgnoreCornerThree(a[n].coords, b[n].coords);
    }
  }

  /** The average uses only the upper-left, lower-left and lower-right
      corners of each quad (lines 576-577). */
  lemma AverageIgnoresCornerThree(a: seq<GlyphQuads>, b: seq<GlyphQuads>)
    requires WholeQuads(a) && |a| == |b|
    requires forall i :: 0 <= i < |a| ==> SameMeasuredCorners(a[i].coords, b[i].coords)
    ensures WholeQuads(b)
    ensures AverageGlyphSize(a) == AverageGlyphSize(b)
  {
    TotalsIgnoreCornerThree(a, b);
  }

  // ---------------------------------------------------------------------
  // Backdrop positions (lines 607-734)
  // ---------------------------------------------------------------------

  /** How far the backdrop reaches in x and y: the average glyph size
      times the horizontal and vertical offset fractions. None when there
      are no quads to average. */
  function BackdropExtent(bs: seq<GlyphQuads>, hOff: real, vOff: real): (r: Option<Vec2>)
    requires WholeQuads(bs)
    ensures r.None? <==> TotalQuads(bs) == 0
  {
    match AverageGlyphSize(bs)
    case None => None
    case Some(size) => Some(Vec2(size.width * hOff, size.height * vOff))
  }

  /** `x` taken in unit direction `d`: forwards, backwards or not at all. */
  function Along(d: real, x: real): real {
    if d > 0.0 then x else if d < 0.0 then -x else 0.0
  }

  /** For the unit directions of the slot table, going along `d` is
      multiplying by `d`. */
  lemma AlongIsProduct(d: real, x: real)
    requires d == 1.0 || d == 0.0 || d == -1.0
    ensures Along(d, x) == d * x
  {
  }

  /** How far slot `slot`'s copy moves for backdrop extent `ext`. */
  function SlotOffset(slot: nat, ext: Vec2): Vec2 {
    var d := ShiftDirection(slot);
    Vec2(Along(d.x, ext.x), Along(d.y, ext.y))
  }

  /** The slot offset is the shift the source writes: direction times
      offset fraction times average size (line 729). */
  lemma SlotOffsetIsSourceShift(slot: nat, size: GlyphSize, hOff: real, vOff: real)
    ensures var d := ShiftDirection(slot);
            SlotOffset(slot, Vec2(size.width * hOff, size.height * vOff))
            == Vec2(d.x * hOff * size.width, d.y * vOff * size.height)
  {
    var d := ShiftDirection(slot);
    AlongIsProduct(d.x, size.width * hOff);
    AlongIsProduct(d.y, size.height * vOff);
    assert d.x * (size.width * hOff) == d.x * hOff * size.width;
    assert d.y * (size.height * vOff) == d.y * vOff * size.height;
  }

  /** The coordinates moved by `off`. */
  function Shifted(cs: seq<Vec2>, off: Vec2): (r: seq<Vec2>)
    ensures |r| == |cs|
    ensures forall k :: 0 <= k < |r| ==> r[k].x - cs[k].x == off.x && r[k].y - cs[k].y == off.y
  {
    seq(|cs|, k requires 0 <= k < |cs| => Add(cs[k], off))
  }

  /** Shifting back undoes a shift. */
  lemma ShiftedBack(cs: seq<Vec2>, off: Vec2)
    ensures Shifted(Shifted(cs, off), Vec2(-off.x, -off.y)) == cs
  {
  }

  /** One batch's backdrop copies for type `t`: the used slots are rebuilt
      from the batch's coordinates, the others keep what they held. */
  function FillSlots(b: GlyphQuads, t: BackdropType, ext: Vec2): (r: GlyphQuads)
    requires t != NoBackdrop && |b.backdropCoords| == BACKDROP_SLOTS
    ensures r.(backdropCoords := b.backdropCoords) == b
    ensures |r.backdropCoords| == BACKDROP_SLOTS
    ensures forall j :: 0 <= j < BACKDROP_SLOTS && !UsesSlot(t, j) ==> r.backdropCoords[j] == b.backdropCoords[j]
    ensures forall j :: 0 <= j < BACKDROP_SLOTS && UsesSlot(t, j) ==>
              |r.backdropCoords[j]| == |b.coords|
  {
    b.(backdropCoords := seq(BACKDROP_SLOTS, j requires 0 <= j < BACKDROP_SLOTS =>
        if UsesSlot(t, j) then Shifted(b.coords, SlotOffset(j, ext)) else b.backdropCoords[j]))
  }

  /** Every batch has its eight backdrop slots and whole quads. */
  predicate HasSlots(bs: seq<GlyphQuads>) {
    forall i :: 0 <= i < |bs| ==> |bs[i].backdropCoords| == BACKDROP_SLOTS && |bs[i].coords| % 4 == 0
  }

  /** Slot `j` of batch `b` holds `b`'s coordinates moved by `off`. */
  predicate SlotHoldsShift(b: GlyphQuads, j: nat, off: Vec2)
    requires j < |b.backdropCoords|
  {
    var cs := b.backdropCoords[j];
    |cs| == |b.coords| && forall k :: 0 <= k < |cs| ==> cs[k] == Add(b.coords[k], off)
  }

  /** Text::computeBackdropPositions. */
  function ComputeBackdropPositions(bs: seq<GlyphQuads>, t: BackdropType, hOff: real, vOff: real): (r: seq<GlyphQuads>)
    requires HasSlots(bs)
    ensures |r| == |bs| && HasSlots(r)
    ensures t == NoBackdrop || TotalQuads(bs) == 0 ==> r == bs
    ensures forall i :: 0 <= i < |r| ==> r[i].(backdropCoords := bs[i].backdropCoords) == bs[i]
    ensures t != NoBackdrop && TotalQuads(bs) > 0 ==>
              forall i, j :: 0 <= i < |r| && 0 <= j < BACKDROP_SLOTS ==>
                (UsesSlot(t, j) ==> SlotHoldsShift(r[i], j, SlotOffset(j, BackdropExtent(bs, hOff, vOff).value)))
                && (!UsesSlot(t, j) ==> r[i].backdropCoords[j] == bs[i].backdropCoords[j])
  {
    if t == NoBackdrop then bs
    else match BackdropExtent(bs, hOff, vOff)
      case None => bs
      case Some(ext) => seq(|bs|, i requires 0 <= i < |bs| => FillSlots(bs[i], t, ext))
  }

  /** Computing the backdrop positions keeps every batch well formed. */
  lemma BackdropPositionsKeepWellFormed(bs: seq<GlyphQuads>, t: BackdropType, hOff: real, vOff: real)
    requires BatchesWellFormed(bs)
    ensures HasSlots(bs)
    ensures BatchesWellFormed(ComputeBackdropPositions(bs, t, hOff, vOff))
  {
    var r := ComputeBackdropPositions(bs, t, hOff, vOff);
    forall i | 0 <= i < |r| ensures WellFormed(r[i]) {
      assert r[i].(backdropCoords := bs[i].backdropCoords) == bs[i];
    }
    assert forall i, j :: 0 <= i < |r| && 0 <= j < |r| && i != j ==> r[i].texture == bs[i].texture && r[j].texture == bs[j].texture;
  }

  // ---------------------------------------------------------------------
  // Bounding box (lines 738-893)
  // ---------------------------------------------------------------------

  /** The named directions grow the box on that side; Outline grows all four. */
  predicate GrowsLeft(t: BackdropType) { t == Outline || (IsDropShadow(t) && NamedDx(t) < 0.0) }
  predicate GrowsRight(t: BackdropType) { t == Outline || (IsDropShadow(t) && NamedDx(t) > 0.0) }
  predicate GrowsDown(t: BackdropType) { t == Outline || (IsDropShadow(t) && NamedDy(t) < 0.0) }
  predicate GrowsUp(t: BackdropType) { t == Outline || (IsDropShadow(t) && NamedDy(t) > 0.0) }

  /** `r` is `bb` with each side `t` names moved out, by `ext.x` in x and
      `ext.y` in y; z is untouched. */
  predicate GrownBy(r: BBox, bb: BBox, t: BackdropType, ext: Vec2)
    requires bb.Box?
  {
    && r.Box? && r.zMin == bb.zMin && r.zMax == bb.zMax
    && r.xMin == bb.xMin - (if GrowsLeft(t) then ext.x else 0.0)
    && r.xMax == bb.xMax + (if GrowsRight(t) then ext.x else 0.0)
    && r.yMin == bb.yMin - (if GrowsDown(t) then ext.y else 0.0)
    && r.yMax == bb.yMax + (if GrowsUp(t) then ext.y else 0.0)
  }

  /** The growth table of lines 764-877. */
  function GrowBox(bb: BBox, t: BackdropType, ext: Vec2): (r: BBox)
    requires bb.Box?
    ensures GrownBy(r, bb, t, ext)
  {
    var w, h := ext.x, ext.y;
    match t
    case DropShadowBottomRight => bb.(yMin := bb.yMin - h, xMax := bb.xMax + w)
    case DropShadowCenterRight => bb.(xMax := bb.xMax + w)
    case DropShadowTopRight => bb.(xMax := bb.xMax + w, yMax := bb.yMax + h)
    case DropShadowBottomCenter => bb.(yMin := bb.yMin - h)
    case DropShadowTopCenter => bb.(yMax := bb.yMax + h)
    case DropShadowBottomLeft => bb.(xMin := bb.xMin - w, yMin := bb.yMin - h)
    case DropShadowCenterLeft => bb.(xMin := bb.xMin - w)
    case DropShadowTopLeft => bb.(xMin := bb.xMin - w, yMax := bb.yMax + h)
    case Outline => bb.(xMin := bb.xMin - w, yMin := bb.yMin - h, xMax := bb.xMax + w, yMax := bb.yMax + h)
    case NoBackdrop => bb
  }

  /** Text::computeBackdropBoundingBox: each side the backdrop type names
      moves out by the backdrop extent; the box is left alone without a
      backdrop, when it is invalid, or when there are no quads. */
  function ComputeBackdropBoundingBox(bb: BBox, bs: seq<GlyphQuads>, t: BackdropType, hOff: real, vOff: real): (r: BBox)
    requires WholeQuads(bs)
    ensures t == NoBackdrop || !bb.Valid() || TotalQuads(bs) == 0 ==> r == bb
    ensures t != NoBackdrop && bb.Valid() && TotalQuads(bs) > 0 ==>
              GrownBy(r, bb, t, BackdropExtent(bs, hOff, vOff).value)
  {
    if t == NoBackdrop || !bb.Valid() then bb
    else match BackdropExtent(bs, hOff, vOff)
      case None => bb
      case Some(ext) => GrowBox(bb, t, ext)
  }

  /** The backdrop extent is non-negative in both directions. */
  predicate OutwardOffsets(bs: seq<GlyphQuads>, hOff: real, vOff: real)
    requires WholeQuads(bs)
  {
    BackdropExtent(bs, hOff, vOff).Some? ==>
      BackdropExtent(bs, hOff, vOff).value.x >= 0.0 && BackdropExtent(bs, hOff, vOff).value.y >= 0.0
  }

  /** The offset of a slot the type uses stays within the sides the type
      grows. */
  lemma SlotOffsetWithinGrowth(t: BackdropType, j: nat, ext: Vec2)
    requires t != NoBackdrop && UsesSlot(t, j) && ext.x >= 0.0 && ext.y >= 0.0
    ensures var off := SlotOffset(j, ext);
            && -(if GrowsLeft(t) then ext.x else 0.0) <= off.x <= (if GrowsRight(t) then ext.x else 0.0)
            && -(if GrowsDown(t) then ext.y else 0.0) <= off.y <= (if GrowsUp(t) then ext.y else 0.0)
  {
  }

  /** With outward offsets, a drop shadow's box is exactly the hull of the
      text box and the text box moved by the shadow's slot offset. */
  lemma DropShadowBoxIsHull(bb: BBox, bs: seq<GlyphQuads>, t: BackdropType, hOff: real, vOff: real)
    requires WholeQuads(bs) && IsDropShadow(t) && bb.Valid() && TotalQuads(bs) > 0
    requires OutwardOffsets(bs, hOff, vOff)
    ensures ComputeBackdropBoundingBox(bb, bs, t, hOff, vOff)
            == Hull(bb, Translate(bb, SlotOffset(Ordinal(t), BackdropExtent(bs, hOff, vOff).value)))
  {
  }

  /** With outward offsets, the outline box holds the text box moved by
      every one of the eight slot offsets, and is the hull of its
      bottom-left and top-right copies. */
  lemma OutlineBoxIsHull(bb: BBox, bs: seq<GlyphQuads>, hOff: real, vOff: real)
    requires WholeQuads(bs) && bb.Valid() && TotalQuads(bs) > 0
    requires OutwardOffsets(bs, hOff, vOff)
    ensures var r := ComputeBackdropBoundingBox(bb, bs, Outline, hOff, vOff);
            var ext := BackdropExtent(bs, hOff, vOff).value;
            && (forall j :: 0 <= j < BACKDROP_SLOTS ==> Within(Translate(bb, SlotOffset(j, ext)), r))
            && r == Hull(Translate(bb, SlotOffset(Ordinal(DropShadowBottomLeft), ext)),
                         Translate(bb, SlotOffset(Ordinal(DropShadowTopRight), ext)))
  {
    var r := ComputeBackdropBoundingBox(bb, bs, Outline, hOff, vOff);
    var ext := BackdropExtent(bs, hOff, vOff).value;
    forall j | 0 <= j < BACKDROP_SLOTS
      ensures Within(Translate(bb, SlotOffset(j, ext)), r)
    {
      SlotOffsetWithinGrowth(Outline, j, ext);
    }
  }

  /** With outward offsets the backdrop only ever grows the box. */
  lemma BackdropBoxGrows(bb: BBox, bs: seq<GlyphQuads>, t: BackdropType, hOff: real, vOff: real)
    requires WholeQuads(bs) && OutwardOffsets(bs, hOff, vOff)
    ensures Within(bb, ComputeBackdropBoundingBox(bb, bs, t, hOff, vOff))
  {
  }

  /** A point of the text box, moved by an offset within the growth on
      every side, lies in the grown box. */
  lemma MovedPointInside(bb: BBox, grown: BBox, p: Vec2, off: Vec2, t: BackdropType, ext: Vec2)
    requires bb.Box? && Contains(bb, p) && GrownBy(grown, bb, t, ext)
    requires -(if GrowsLeft(t) then ext.x else 0.0) <= off.x <= (if GrowsRight(t) then ext.x else 0.0)
    requires -(if GrowsDown(t) then ext.y else 0.0) <= off.y <= (if GrowsUp(t) then ext.y else 0.0)
    ensures Contains(grown, Add(p, off))
  {
  }

  /** If the text box covered the glyph quads, then after both backdrop
      steps the grown box covers every backdrop copy that was drawn. */
  lemma BackdropGeometryCovered(bb: BBox, bs: seq<GlyphQuads>, t: BackdropType, hOff: real, vOff: real)
    requires HasSlots(bs) && BoxCovers(bb, bs) && bb.Valid() && t != NoBackdrop && TotalQuads(bs) > 0
    requires OutwardOffsets(bs, hOff, vOff)
    ensures var r := ComputeBackdropPositions(bs, t, hOff, vOff);
            var grown := ComputeBackdropBoundingBox(bb, bs, t, hOff, vOff);
            forall i, j, k :: 0 <= i < |r| && 0 <= j < BACKDROP_SLOTS && UsesSlot(t, j) && 0 <= k < |r[i].backdropCoords[j]|
              ==> Contains(grown, r[i].backdropCoords[j][k])
  {
    var r := ComputeBackdropPositions(bs, t, hOff, vOff);
    var grown := ComputeBackdropBoundingBox(bb, bs, t, hOff, vOff);
    var ext := BackdropExtent(bs, hOff, vOff).value;
    forall i, j, k | 0 <= i < |r| && 0 <= j < BACKDROP_SLOTS && UsesSlot(t, j) && 0 <= k < |r[i].backdropCoords[j]|
      ensures Contains(grown, r[i].backdropCoords[j][k])
    {
      assert SlotHoldsShift(r[i], j, SlotOffset(j, ext));
      SlotOffsetWithinGrowth(t, j, ext);
      MovedPointInside(bb, grown, bs[i].coords[k], SlotOffset(j, ext), t, ext);
    }
  }

  // ---------------------------------------------------------------------
  // Margin (lines 881-893)
  // ---------------------------------------------------------------------

  /** Text::DrawModeMask bits. */
  const TEXT: bv32 := 1
  const BOUNDINGBOX: bv32 := 2
  const FILLEDBOUNDINGBOX: bv32 := 4
  const ALIGNMENT: bv32 := 8

  predicate DrawsBox(drawMode: bv32) {
    drawMode & (BOUNDINGBOX | FILLEDBOUNDINGBOX) != 0
  }

  /** Text::computeBoundingBoxMargin: when a bounding-box mode is on, the
      box grows by the margin on both sides in x and y. */
  function ComputeBoundingBoxMargin(bb: BBox, drawMode: bv32, margin: real): (r: BBox)
    ensures !DrawsBox(drawMode) || bb.Empty? ==> r == bb
    ensures DrawsBox(drawMode) && bb.Box? ==>
              && r.Box? && r.zMin == bb.zMin && r.zMax == bb.zMax
              && r.xMax - r.xMin == (bb.xMax - bb.xMin) + 2.0 * margin
              && r.yMax - r.yMin == (bb.yMax - bb.yMin) + 2.0 * margin
              && r.xMin + r.xMax == bb.xMin + bb.xMax
              && r.yMin + r.yMax == bb.yMin + bb.yMax
  {
    if DrawsBox(drawMode) && bb.Box? then
      bb.(xMin := bb.xMin - margin, yMin := bb.yMin - margin, xMax := bb.xMax + margin, yMax := bb.yMax + margin)
    else bb
  }

  /** A non-negative margin never shrinks the box; a box that held a point
      still holds it. */
  lemma MarginGrows(bb: BBox, drawMode: bv32, margin: real, p: Vec2)
    requires margin >= 0.0
    ensures Within(bb, ComputeBoundingBoxMargin(bb, drawMode, margin))
    ensures Contains(bb, p) ==> Contains(ComputeBoundingBoxMargin(bb, drawMode, margin), p)
  {
  }
}
