/** The glyph-metrics provider the layout consumes, and the layout settings.
    The font is abstract: a glyph lookup that may find nothing and a kerning
    table, both for the active font at the text's font size and kerning mode. */
module Fonts {
  import opened Wrappers
  import opened Geometry

  /** A character code of osgText::String (an unsigned int). */
  type CharCode = nat

  const NEWLINE: CharCode := 10
  const SPACE: CharCode := 32
  const HYPHEN: CharCode := 45

  /** Identity of the texture page a glyph lives in. */
  type TextureId = nat

  type PosInt = n: int | n > 0 witness 1
  type NonZeroReal = r: real | r != 0.0 witness 1.0

  /** The metrics of one glyph as osgText::Glyph reports them. */
  datatype Glyph = Glyph(
    width: real,
    height: real,
    horizontalAdvance: real,
    verticalAdvance: real,
    horizontalBearing: Vec2,
    verticalBearing: Vec2,
    minTexCoord: Vec2,
    maxTexCoord: Vec2,
    texture: TextureId,
    textureWidth: PosInt,
    textureHeight: PosInt)

  /** Font::getGlyph and Font::getKerning with the size and kerning mode fixed. */
  datatype Font = Font(glyphOf: CharCode -> Option<Glyph>, kerning: (CharCode, CharCode) -> Vec2)

  datatype Layout = LeftToRight | RightToLeft | Vertical

  datatype HAlign = HLeft | HCenter | HRight
  datatype VAlign = VTop | VCenter | VBottom | VBaseLine | VBottomBaseLine

  /** The fifteen AlignmentType values, e.g. LEFT_BOTTOM_BASE_LINE is
      Alignment(HLeft, VBottomBaseLine). */
  datatype Alignment = Alignment(h: HAlign, v: VAlign)

  /** The TextBase settings the layout reads. */
  datatype Settings = Settings(
    layout: Layout,
    alignment: Alignment,
    characterHeight: real,
    aspectRatio: NonZeroReal,
    maximumWidth: real,
    maximumHeight: real,
    lineSpacing: real)

  /** hr: the character height scale. */
  function Hr(s: Settings): real { s.characterHeight }

  /** wr: the character width scale, height over aspect ratio. */
  function Wr(s: Settings): real { s.characterHeight / s.aspectRatio }

  predicate IsHorizontal(s: Settings) { s.layout != Vertical }

  /** A space or a newline: the characters word wrapping breaks before. */
  predicate IsBreakSpace(c: CharCode) { c == SPACE || c == NEWLINE }
}
