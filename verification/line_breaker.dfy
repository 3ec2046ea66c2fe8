/** Text::computeLastCharacterOnLine: where the line starting at `first`
    must end, and the cursor position at that break. */
module LineBreaker {
  import opened Wrappers
  import opened Geometry
  import opened Fonts

  /** The break position and the cursor there. */
  datatype LineEnd = LineEnd(pos: nat, cursor: Vec2)

  datatype ScanStop = AtEnd | AtNewline | OutOfSpace

  /** Where the forward scan stopped, the cursor there and why. */
  datatype Scan = Scan(pos: nat, cursor: Vec2, stop: ScanStop)

  /** The pen position at which glyph `g` for `c` is placed: right-to-left
      layout first moves back by the glyph's advance, then the kerning
      against the previous character (0 meaning none) is applied, except in
      vertical layout. Shared by the line breaker and the layout driver. */
  function PenBeforeGlyph(font: Font, s: Settings, prev: CharCode, c: CharCode, g: Glyph, cursor: Vec2): (r: Vec2)
    ensures s.layout == LeftToRight && prev == 0 ==> r == cursor
    ensures s.layout == RightToLeft && prev == 0 ==> r == Vec2(cursor.x - g.horizontalAdvance * Wr(s), cursor.y)
    ensures s.layout == Vertical ==> r == cursor
  {
    var pen := if s.layout == RightToLeft then Vec2(cursor.x - g.horizontalAdvance * Wr(s), cursor.y) else cursor;
    if prev == 0 then pen
    else
      match s.layout
      case LeftToRight =>
        var d := font.kerning(prev, c);
        Vec2(pen.x + d.x * Wr(s), pen.y + d.y * Hr(s))
      case RightToLeft =>
        var d := font.kerning(c, prev);
        Vec2(pen.x - d.x * Wr(s), pen.y - d.y * Hr(s))
      case Vertical => pen
  }

  /** The pen position after glyph `g`: left-to-right moves right by the
      horizontal advance, vertical moves down by the vertical advance,
      right-to-left has already moved. */
  function PenAfterGlyph(s: Settings, g: Glyph, pen: Vec2): (r: Vec2)
    ensures s.layout == RightToLeft ==> r == pen
    ensures s.layout == LeftToRight ==> r.y == pen.y && r.x - pen.x == g.horizontalAdvance * Wr(s)
    ensures s.layout == Vertical ==> r.x == pen.x && pen.y - r.y == g.verticalAdvance * Hr(s)
  {
    match s.layout
    case LeftToRight => Vec2(pen.x + g.horizontalAdvance * Wr(s), pen.y)
    case Vertical => Vec2(pen.x, pen.y - g.verticalAdvance * Hr(s))
    case RightToLeft => pen
  }

  /** Glyph `g` placed at `pen` would leave the space the maximum width
      and height allow; a limit <= 0 means none. Its width is scaled by wr. */
  predicate OutOfSpaceAt(s: Settings, pen: Vec2, g: Glyph) {
    var width := g.width * Wr(s);
    match s.layout
    case LeftToRight =>
      (s.maximumWidth > 0.0 && pen.x + width > s.maximumWidth)
      || (s.maximumHeight > 0.0 && pen.y < -s.maximumHeight)
    case RightToLeft =>
      (s.maximumWidth > 0.0 && pen.x < -s.maximumWidth)
      || (s.maximumHeight > 0.0 && pen.y < -s.maximumHeight)
    case Vertical =>
      s.maximumHeight > 0.0 && pen.y < -s.maximumHeight
  }

  /** Neither a maximum width nor a maximum height is set. */
  predicate NoLimits(s: Settings) {
    s.maximumWidth <= 0.0 && s.maximumHeight <= 0.0
  }

  /** The forward scan of lines 109-187 from position `i`: stops at a
      newline, at the first glyph that does not fit, or at `last`.
      Characters without a glyph are passed over and do not move the cursor. */
  function ScanLine(font: Font, s: Settings, text: seq<CharCode>, last: nat, i: nat, cursor: Vec2, prev: CharCode): (r: Scan)
    requires i <= last <= |text|
    decreases last - i
    ensures i <= r.pos <= last
    ensures r.stop == AtEnd <==> r.pos == last
    ensures r.stop == AtNewline ==> text[r.pos] == NEWLINE
    ensures r.stop == OutOfSpace ==> text[r.pos] != NEWLINE && font.glyphOf(text[r.pos]).Some?
    ensures r.stop == OutOfSpace ==> OutOfSpaceAt(s, r.cursor, font.glyphOf(text[r.pos]).value)
    ensures forall k :: i <= k < r.pos ==> text[k] != NEWLINE
    ensures NoLimits(s) ==> r.stop != OutOfSpace
  {
    if i == last then Scan(i, cursor, AtEnd)
    else if text[i] == NEWLINE then Scan(i, cursor, AtNewline)
    else
      match font.glyphOf(text[i])
      case None => ScanLine(font, s, text, last, i + 1, cursor, prev)
      case Some(g) =>
        var pen := PenBeforeGlyph(font, s, prev, text[i], g, cursor);
        if OutOfSpaceAt(s, pen, g) then Scan(i, pen, OutOfSpace)
        else ScanLine(font, s, text, last, i + 1, PenAfterGlyph(s, g, pen), text[i])
  }

  /** The pen and the previous character code. */
  datatype Pen = Pen(cursor: Vec2, prev: CharCode)

  /** The pen after character `c`: a glyph is kerned against the previous
      character and advances the pen; a character without one is passed
      over. */
  function StepPen(font: Font, s: Settings, c: CharCode, pen: Pen): Pen {
    match font.glyphOf(c)
    case None => pen
    case Some(g) => Pen(PenAfterGlyph(s, g, PenBeforeGlyph(font, s, pen.prev, c, g, pen.cursor)), c)
  }

  /** The pen after laying out text[i..j] from `pen` with no width or
      height limit. Newlines are not treated specially. */
  function WalkPen(font: Font, s: Settings, text: seq<CharCode>, i: nat, j: nat, pen: Pen): Pen
    requires i <= j <= |text|
    decreases j - i
  {
    if i == j then pen else WalkPen(font, s, text, i + 1, j, StepPen(font, s, text[i], pen))
  }

  /** The glyph of text[k], if any, fits when the line from `i` is laid out
      up to it from `pen`. */
  predicate GlyphFitsAt(font: Font, s: Settings, text: seq<CharCode>, i: nat, k: nat, pen: Pen)
    requires i <= k < |text|
  {
    match font.glyphOf(text[k])
    case None => true
    case Some(g) =>
      var w := WalkPen(font, s, text, i, k, pen);
      !OutOfSpaceAt(s, PenBeforeGlyph(font, s, w.prev, text[k], g, w.cursor), g)
  }

  /** Laying out from `i` is laying out text[i] and then from i + 1. */
  lemma WalkPenStep(font: Font, s: Settings, text: seq<CharCode>, i: nat, k: nat, pen: Pen)
    requires i < k <= |text|
    ensures WalkPen(font, s, text, i, k, pen) == WalkPen(font, s, text, i + 1, k, StepPen(font, s, text[i], pen))
    ensures k < |text| ==> GlyphFitsAt(font, s, text, i, k, pen) == GlyphFitsAt(font, s, text, i + 1, k, StepPen(font, s, text[i], pen))
  {
  }

  /** The scan stops out of space at the first glyph that does not fit:
      every glyph before the stop fits, the stop glyph does not, and the
      cursor there is the pen the layout reaches at that glyph. Stopping
      at a newline or at the end, the cursor is the pen after the line. */
  lemma {:induction false} ScanLineStopsAtFirstMisfit(font: Font, s: Settings, text: seq<CharCode>, last: nat, i: nat, cursor: Vec2, prev: CharCode)
    requires i <= last <= |text|
    ensures var r := ScanLine(font, s, text, last, i, cursor, prev);
            forall k :: i <= k < r.pos ==> GlyphFitsAt(font, s, text, i, k, Pen(cursor, prev))
    ensures var r := ScanLine(font, s, text, last, i, cursor, prev);
            var w := WalkPen(font, s, text, i, r.pos, Pen(cursor, prev));
            r.stop == OutOfSpace ==>
              && !GlyphFitsAt(font, s, text, i, r.pos, Pen(cursor, prev))
              && r.cursor == PenBeforeGlyph(font, s, w.prev, text[r.pos], font.glyphOf(text[r.pos]).value, w.cursor)
    ensures var r := ScanLine(font, s, text, last, i, cursor, prev);
            r.stop != OutOfSpace ==> r.cursor == WalkPen(font, s, text, i, r.pos, Pen(cursor, prev)).cursor
    decreases last - i
  {
    var r := ScanLine(font, s, text, last, i, cursor, prev);
    var p := Pen(cursor, prev);
    if i < last && text[i] != NEWLINE {
      var p' := StepPen(font, s, text[i], p);
      var fits := match font.glyphOf(text[i])
                  case None => true
                  case Some(g) => !OutOfSpaceAt(s, PenBeforeGlyph(font, s, prev, text[i], g, cursor), g);
      if fits {
        assert r == ScanLine(font, s, text, last, i + 1, p'.cursor, p'.prev);
        ScanLineStopsAtFirstMisfit(font, s, text, last, i + 1, p'.cursor, p'.prev);
        forall k | i < k <= r.pos
          ensures WalkPen(font, s, text, i, k, p) == WalkPen(font, s, text, i + 1, k, p')
          ensures k < |text| ==> GlyphFitsAt(font, s, text, i, k, p) == GlyphFitsAt(font, s, text, i + 1, k, p')
        {
          WalkPenStep(font, s, text, i, k, p);
        }
        assert GlyphFitsAt(font, s, text, i, i, p);
      }
    }
  }

  /** Position `q` is a word boundary of the line starting at `first`:
      a hyphen (break after it), or a space or newline following a
      character that is neither (break before it). */
  predicate IsBoundary(text: seq<CharCode>, first: nat, q: nat)
    requires q < |text|
  {
    first < q
    && (text[q] == HYPHEN || (IsBreakSpace(text[q]) && !IsBreakSpace(text[q - 1])))
  }

  /** Where the line ends for a boundary at `q`. */
  function BreakAt(text: seq<CharCode>, q: nat): nat
    requires q < |text|
  {
    if text[q] == HYPHEN then q + 1 else q
  }

  /** Backing the cursor up over character `c` (lines 206-218): hyphens and
      characters without a glyph leave it, otherwise left-to-right moves
      back by the horizontal advance, vertical moves up by the vertical
      advance, right-to-left does nothing. */
  function RetreatChar(font: Font, s: Settings, c: CharCode, cursor: Vec2): Vec2 {
    if c == HYPHEN then cursor
    else
      match font.glyphOf(c)
      case None => cursor
      case Some(g) =>
        match s.layout
        case LeftToRight => Vec2(cursor.x - g.horizontalAdvance * Wr(s), cursor.y)
        case Vertical => Vec2(cursor.x, cursor.y + g.verticalAdvance * Hr(s))
        case RightToLeft => cursor
  }

  /** The cursor backed up over every character of `cs`, last first. */
  function RetreatOver(font: Font, s: Settings, cs: seq<CharCode>, cursor: Vec2): Vec2
    decreases |cs|
  {
    if |cs| == 0 then cursor
    else RetreatOver(font, s, cs[..|cs| - 1], RetreatChar(font, s, cs[|cs| - 1], cursor))
  }

  /** The backward walk of lines 190-224 from `lvc` towards `first`; the
      lemma BacktrackFindsNearestBoundary states what it finds. */
  function Backtrack(font: Font, s: Settings, text: seq<CharCode>, first: nat, lvc: nat, cursor: Vec2, provisional: nat): (r: LineEnd)
    requires first <= lvc <= provisional < |text|
    decreases lvc - first
    ensures r.pos == provisional || first < r.pos <= lvc + 1
  {
    if lvc == first then
      LineEnd(provisional, cursor)
    else if text[lvc] == HYPHEN then
      LineEnd(lvc + 1, cursor)
    else if IsBreakSpace(text[lvc]) && !IsBreakSpace(text[lvc - 1]) then
      LineEnd(lvc, cursor)
    else
      Backtrack(font, s, text, first, lvc - 1, RetreatChar(font, s, text[lvc - 1], cursor), provisional)
  }

  /** The backward walk ends at the break of the nearest boundary at or
      before `lvc`, with the cursor backed up over the characters from that
      boundary to `lvc`. With no boundary it returns the provisional
      position, yet the cursor is still backed up over the whole line. */
  lemma BacktrackFindsNearestBoundary(font: Font, s: Settings, text: seq<CharCode>, first: nat, lvc: nat, cursor: Vec2, provisional: nat)
    requires first <= lvc <= provisional < |text|
    ensures var r := Backtrack(font, s, text, first, lvc, cursor, provisional);
            (forall q :: first < q <= lvc ==> !IsBoundary(text, first, q))
            ==> r == LineEnd(provisional, RetreatOver(font, s, text[first..lvc], cursor))
    ensures var r := Backtrack(font, s, text, first, lvc, cursor, provisional);
            forall q :: (first < q <= lvc && IsBoundary(text, first, q)
                         && (forall q' :: q < q' <= lvc ==> !IsBoundary(text, first, q')))
                        ==> r == LineEnd(BreakAt(text, q), RetreatOver(font, s, text[q..lvc], cursor))
  {
    if forall q :: first < q <= lvc ==> !IsBoundary(text, first, q) {
      BacktrackWithoutBoundary(font, s, text, first, lvc, cursor, provisional);
    }
    forall q | first < q <= lvc && IsBoundary(text, first, q)
               && (forall q' :: q < q' <= lvc ==> !IsBoundary(text, first, q'))
      ensures Backtrack(font, s, text, first, lvc, cursor, provisional)
           == LineEnd(BreakAt(text, q), RetreatOver(font, s, text[q..lvc], cursor))
    {
      BacktrackToBoundary(font, s, text, first, lvc, cursor, provisional, q);
    }
  }

  /** Without a boundary the walk reaches `first` and keeps the
      provisional position. */
  lemma {:induction false} BacktrackWithoutBoundary(font: Font, s: Settings, text: seq<CharCode>, first: nat, lvc: nat, cursor: Vec2, provisional: nat)
    requires first <= lvc <= provisional < |text|
    requires forall q :: first < q <= lvc ==> !IsBoundary(text, first, q)
    ensures Backtrack(font, s, text, first, lvc, cursor, provisional)
         == LineEnd(provisional, RetreatOver(font, s, text[first..lvc], cursor))
    decreases lvc - first
  {
    if lvc == first {
      assert text[first..lvc] == [];
    } else {
      assert !IsBoundary(text, first, lvc);
      var c' := RetreatChar(font, s, text[lvc - 1], cursor);
      BacktrackWithoutBoundary(font, s, text, first, lvc - 1, c', provisional);
      RetreatOverStep(font, s, text, first, lvc, cursor);
    }
  }

  /** With `q` the last boundary at or before `lvc`, the walk stops there. */
  lemma {:induction false} BacktrackToBoundary(font: Font, s: Settings, text: seq<CharCode>, first: nat, lvc: nat, cursor: Vec2, provisional: nat, q: nat)
    requires first <= lvc <= provisional < |text|
    requires first < q <= lvc && IsBoundary(text, first, q)
    requires forall q' :: q < q' <= lvc ==> !IsBoundary(text, first, q')
    ensures Backtrack(font, s, text, first, lvc, cursor, provisional)
         == LineEnd(BreakAt(text, q), RetreatOver(font, s, text[q..lvc], cursor))
    decreases lvc - q
  {
    if q == lvc {
      assert text[lvc..lvc] == [];
    } else {
      assert !IsBoundary(text, first, lvc);
      var c' := RetreatChar(font, s, text[lvc - 1], cursor);
      BacktrackToBoundary(font, s, text, first, lvc - 1, c', provisional, q);
      RetreatOverStep(font, s, text, q, lvc, cursor);
    }
  }

  /** Backing up over text[lo..hi] is backing up over text[hi-1] first. */
  lemma {:induction false} RetreatOverStep(font: Font, s: Settings, text: seq<CharCode>, lo: nat, hi: nat, cursor: Vec2)
    requires lo < hi <= |text|
    ensures RetreatOver(font, s, text[lo..hi], cursor)
         == RetreatOver(font, s, text[lo..hi - 1], RetreatChar(font, s, text[hi - 1], cursor))
  {
    assert text[lo..hi][..hi - lo - 1] == text[lo..hi - 1];
  }

  /** Text::computeLastCharacterOnLine over text[first..last]. The line
      never holds a newline, and its end lies in [first, last]. */
  function ComputeLastCharacterOnLine(font: Font, s: Settings, text: seq<CharCode>, cursor: Vec2, first: nat, last: nat): (r: LineEnd)
    requires first <= last <= |text|
    ensures first <= r.pos <= last
    ensures forall k :: first <= k < r.pos ==> text[k] != NEWLINE
    ensures first < last && text[first] == NEWLINE ==> r == LineEnd(first, cursor)
    ensures NoLimits(s) ==> r.pos == last || text[r.pos] == NEWLINE
    ensures NoLimits(s) && (forall k :: first <= k < last ==> text[k] != NEWLINE) ==> r.pos == last
  {
    var sc := ScanLine(font, s, text, last, first, cursor, 0);
    if sc.stop == OutOfSpace then
      Backtrack(font, s, text, first, sc.pos, sc.cursor, sc.pos)
    else
      LineEnd(sc.pos, sc.cursor)
  }

  /** When the scan runs out of space at position p, the line ends at the
      nearest word boundary after `first` and at or before p: just after a
      hyphen, or at a space or newline that follows a non-space. With no
      such boundary it ends at p itself. */
  lemma WrapBreaksAtNearestBoundary(font: Font, s: Settings, text: seq<CharCode>, cursor: Vec2, first: nat, last: nat)
    requires first <= last <= |text|
    requires ScanLine(font, s, text, last, first, cursor, 0).stop == OutOfSpace
    ensures var p := ScanLine(font, s, text, last, first, cursor, 0).pos;
            var r := ComputeLastCharacterOnLine(font, s, text, cursor, first, last);
            && ((forall q :: first < q <= p ==> !IsBoundary(text, first, q)) ==> r.pos == p)
            && (forall q :: (first < q <= p && IsBoundary(text, first, q)
                             && (forall q' :: q < q' <= p ==> !IsBoundary(text, first, q')))
                            ==> r.pos == BreakAt(text, q))
  {
    var sc := ScanLine(font, s, text, last, first, cursor, 0);
    BacktrackFindsNearestBoundary(font, s, text, first, sc.pos, sc.cursor, sc.pos);
  }

  /** The forward scan does not consult the kerning table in vertical layout. */
  lemma {:induction false} ScanIgnoresKerningWhenVertical(
    glyphOf: CharCode -> Option<Glyph>, k1: (CharCode, CharCode) -> Vec2, k2: (CharCode, CharCode) -> Vec2,
    s: Settings, text: seq<CharCode>, last: nat, i: nat, cursor: Vec2, prev: CharCode)
    requires i <= last <= |text|
    requires s.layout == Vertical
    ensures ScanLine(Font(glyphOf, k1), s, text, last, i, cursor, prev)
         == ScanLine(Font(glyphOf, k2), s, text, last, i, cursor, prev)
    decreases last - i
  {
    if i < last && text[i] != NEWLINE {
      match glyphOf(text[i])
      case None =>
        ScanIgnoresKerningWhenVertical(glyphOf, k1, k2, s, text, last, i + 1, cursor, prev);
      case Some(g) =>
        var pen := PenBeforeGlyph(Font(glyphOf, k1), s, prev, text[i], g, cursor);
        ScanIgnoresKerningWhenVertical(glyphOf, k1, k2, s, text, last, i + 1, PenAfterGlyph(s, g, pen), text[i]);
    }
  }

  /** The backward walk reads glyph advances only, never kerning. */
  lemma {:induction false} BacktrackIgnoresKerning(
    glyphOf: CharCode -> Option<Glyph>, k1: (CharCode, CharCode) -> Vec2, k2: (CharCode, CharCode) -> Vec2,
    s: Settings, text: seq<CharCode>, first: nat, lvc: nat, cursor: Vec2, provisional: nat)
    requires first <= lvc <= provisional < |text|
    ensures Backtrack(Font(glyphOf, k1), s, text, first, lvc, cursor, provisional)
         == Backtrack(Font(glyphOf, k2), s, text, first, lvc, cursor, provisional)
    decreases lvc - first
  {
    if lvc > first && text[lvc] != HYPHEN && !(IsBreakSpace(text[lvc]) && !IsBreakSpace(text[lvc - 1])) {
      var c' := RetreatChar(Font(glyphOf, k1), s, text[lvc - 1], cursor);
      assert c' == RetreatChar(Font(glyphOf, k2), s, text[lvc - 1], cursor);
      BacktrackIgnoresKerning(glyphOf, k1, k2, s, text, first, lvc - 1, c', provisional);
    }
  }

  /** Vertical layout never applies kerning: the line break and its cursor
      are the same whatever the kerning table says. */
  lemma VerticalLineBreakIgnoresKerning(
    glyphOf: CharCode -> Option<Glyph>, k1: (CharCode, CharCode) -> Vec2, k2: (CharCode, CharCode) -> Vec2,
    s: Settings, text: seq<CharCode>, cursor: Vec2, first: nat, last: nat)
    requires first <= last <= |text|
    requires s.layout == Vertical
    ensures ComputeLastCharacterOnLine(Font(glyphOf, k1), s, text, cursor, first, last)
         == ComputeLastCharacterOnLine(Font(glyphOf, k2), s, text, cursor, first, last)
  {
    ScanIgnoresKerningWhenVertical(glyphOf, k1, k2, s, text, last, first, cursor, 0);
    var sc := ScanLine(Font(glyphOf, k1), s, text, last, first, cursor, 0);
    if sc.stop == OutOfSpace {
      BacktrackIgnoresKerning(glyphOf, k1, k2, s, text, first, sc.pos, sc.cursor, sc.pos);
    }
  }
}
