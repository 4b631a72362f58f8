/**
 The glyph table `App::Glyphs` (a `std::map<std::uint32_t, GlyphInfo>` keyed by glyph index)
 and the per-glyph record `GlyphInfo`.

 A `std::map` is iterated in ascending key order; the model keeps the table as the sequence
 of its entries in that order, so every loop over the map is a loop over this sequence.
 */
module Glyphs {
  import opened Wrappers

  /** `GlyphInfo`: metrics from the font engine, placement from the page planner. */
  datatype GlyphInfo = GlyphInfo(
    utf32: nat,
    width: nat,
    height: nat,
    xOffset: int,
    yOffset: int,
    xAdvance: int,
    page: nat,
    x: nat,
    y: nat,
    secondaryFont: bool)

  /** A glyph without pixels is never packed (but is still written to the descriptor). */
  predicate IsEmpty(g: GlyphInfo)
  {
    g.width == 0 || g.height == 0
  }

  datatype Entry = Entry(key: nat, glyph: GlyphInfo)

  /** Strictly ascending keys: the iteration order of a `std::map`, which has unique keys. */
  predicate KeysSorted(t: seq<Entry>)
  {
    forall i, j :: 0 <= i < j < |t| ==> t[i].key < t[j].key
  }

  function Keys(t: seq<Entry>): set<nat>
  {
    set i | 0 <= i < |t| :: t[i].key
  }

  /** Official Unicode characters with property White_Space = yes (App.cpp:398-424). */
  const WHITE_SPACE: set<nat> := {
    0x0009, 0x000A, 0x000B, 0x000C, 0x000D, 0x0020, 0x0085, 0x00A0, 0x1680,
    0x2000, 0x2001, 0x2002, 0x2003, 0x2004, 0x2005, 0x2006, 0x2007, 0x2008,
    0x2009, 0x200A, 0x2028, 0x2029, 0x202F, 0x205F, 0x3000 }

  /** The same set as five ranges of code points. */
  predicate InWhiteSpaceRanges(c: nat)
  {
    (0x9 <= c <= 0xD) || c == 0x20 || c == 0x85 || c == 0xA0 || c == 0x1680
    || (0x2000 <= c <= 0x200A) || c == 0x2028 || c == 0x2029 || c == 0x202F
    || c == 0x205F || c == 0x3000
  }

  lemma WhiteSpaceAsRanges(c: nat)
    ensures c in WHITE_SPACE <==> InWhiteSpaceRanges(c)
  {
  }
}
