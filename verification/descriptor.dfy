/**
 The descriptor assembly of `App::writeFontInfoFile`: from the arranged glyph table, the page
 sizes, the texture file names and the font's face metrics to a `FontInfo` record.

 The font engine's answers (family and style names, style flags, metrics) are the parameter
 `FontFacts`. The defaults of the `FontInfo` fields that the assembly does not set are the
 parameter `Defaults`: `FontInfo.h` is not part of this model.
 */
module Descriptor {
  import opened Wrappers
  import opened MachineInts
  import opened Glyphs
  import opened Layout
  import opened Configuration
  import opened FontInfo
  import opened TextureNames
  import opened Kernings
  import FtFont

  /** What the font engine reports about the primary face. */
  datatype FontFacts = FontFacts(
    familyName: Option<string>,
    styleName: Option<string>,
    bold: bool,
    italic: bool,
    height: int,
    ascent: int,
    descent: int,
    totalHeight: int)

  /** The initial values of the `FontInfo` fields that the assembly may leave untouched. */
  datatype Defaults = Defaults(charset: int, outline: int, packed: bool, scaleW: int, scaleH: int, blank: Char)

  /** `getFamilyNameOr` / `getStyleNameOr`. */
  function NameOr(name: Option<string>, fallback: string): string
  {
    if name.Some? then name.value else fallback
  }

  /** Some page from index `i` on has another size than page 0 (the loop of `writeFontInfoFile`). */
  function DifferentFrom(pages: seq<Size>, i: nat): (d: bool)
    requires 1 <= i <= |pages|
    ensures d <==> exists k :: i <= k < |pages| && (pages[k].w != pages[0].w || pages[k].h != pages[0].h)
    decreases |pages| - i
  {
    if i == |pages| then false
    else if pages[i].w != pages[0].w || pages[i].h != pages[0].h then true
    else DifferentFrom(pages, i + 1)
  }

  /** `pagesHaveDifferentSize`: only computed for more than one page. */
  function PagesHaveDifferentSize(pages: seq<Size>): bool
  {
    |pages| > 1 && DifferentFrom(pages, 1)
  }

  /** All pages have one size. */
  predicate Uniform(pages: seq<Size>)
  {
    forall k :: 0 <= k < |pages| ==> pages[k] == pages[0]
  }

  /** The `info` block. */
  function MakeInfo(c: Config, facts: FontFacts, d: Defaults): Info
  {
    Info(
      face := NameOr(facts.familyName, "unknown"),
      style := NameOr(facts.styleName, "unknown"),
      size := ToI16(-ToI16(c.fontSize)),
      bold := facts.bold,
      italic := facts.italic,
      charset := d.charset,
      unicode := true,
      stretchH := 100,
      smooth := !c.monochrome,
      aa := 1,
      paddingUp := ToU8(c.padding.up),
      paddingRight := ToU8(c.padding.right),
      paddingDown := ToU8(c.padding.down),
      paddingLeft := ToU8(c.padding.left),
      spacingHor := ToU8(c.spacing.hor),
      spacingVer := ToU8(c.spacing.ver),
      outline := d.outline)
  }

  /** The `common` block; the scale is that of page 0 only when every page has that size. */
  function MakeCommon(pages: seq<Size>, facts: FontFacts, d: Defaults): Common
  {
    var scaled := !PagesHaveDifferentSize(pages) && pages != [];
    Common(
      lineHeight := ToU16(facts.height),
      base := ToU16(facts.ascent),
      scaleW := if scaled then ToU16(pages[0].w) else d.scaleW,
      scaleH := if scaled then ToU16(pages[0].h) else d.scaleH,
      packed := d.packed,
      alphaChnl := 0,
      redChnl := 4,
      greenChnl := 4,
      blueChnl := 4,
      totalHeight := ToU16(facts.totalHeight),
      descent := ToI16(facts.descent))
  }

  /** The scale fields hold page 0's size exactly when there are pages and they all have that size. */
  lemma ScaleOnlyForUniformPages(pages: seq<Size>, facts: FontFacts, d: Defaults)
    ensures var cm := MakeCommon(pages, facts, d);
      (pages != [] && Uniform(pages) ==> cm.scaleW == ToU16(pages[0].w) && cm.scaleH == ToU16(pages[0].h))
      && (pages == [] || !Uniform(pages) ==> cm.scaleW == d.scaleW && cm.scaleH == d.scaleH)
  {
    if pages != [] && !Uniform(pages) {
      var k :| 0 <= k < |pages| && pages[k] != pages[0];
      assert 1 <= k;
    }
  }

  /** `size = -fontSize`: the negated font size, as long as it fits `int16_t`. */
  lemma SizeIsNegatedFontSize(c: Config, facts: FontFacts, d: Defaults)
    requires IsU16(c.fontSize)
    ensures var size := MakeInfo(c, facts, d).size;
      (c.fontSize < 0x8000 ==> size == -c.fontSize)
      && (c.fontSize == 0x8000 ==> size == -0x8000)
      && (c.fontSize > 0x8000 ==> size == 0x1_0000 - c.fontSize)
  {
  }

  // ---------------------------------------------------------------------------------------
  // Chars

  /** Ascending by code point: the order `std::sort` establishes. */
  predicate SortedByCode(s: seq<GlyphInfo>)
  {
    forall i, j :: 0 <= i < j < |s| ==> s[i].utf32 <= s[j].utf32
  }

  /** The glyph records of the table, in key order. */
  function GlyphsOf(t: seq<Entry>): (gs: seq<GlyphInfo>)
    ensures |gs| == |t| && forall i :: 0 <= i < |t| ==> gs[i] == t[i].glyph
  {
    seq(|t|, i requires 0 <= i < |t| => t[i].glyph)
  }

  function Insert(g: GlyphInfo, s: seq<GlyphInfo>): (r: seq<GlyphInfo>)
    requires SortedByCode(s)
    ensures SortedByCode(r)
    ensures multiset(r) == multiset(s) + multiset{g}
  {
    if s == [] then [g]
    else if g.utf32 <= s[0].utf32 then [g] + s
    else
      var rest := Insert(g, s[1..]);
      assert s == [s[0]] + s[1..];
      forall x | x in rest ensures s[0].utf32 <= x.utf32 {
        assert x in multiset(rest);
        assert x == g || x in multiset(s[1..]);
      }
      [s[0]] + rest
  }

  /** `std::sort` by code point. Equal code points may come in any order there; here they keep theirs. */
  function SortByCode(s: seq<GlyphInfo>): (r: seq<GlyphInfo>)
    ensures SortedByCode(r)
    ensures multiset(r) == multiset(s)
  {
    if s == [] then []
    else
      assert s == s[..|s| - 1] + [s[|s| - 1]];
      Insert(s[|s| - 1], SortByCode(s[..|s| - 1]))
  }

  /** Whether the glyph gets its geometry written: it has pixels or it is Unicode white space. */
  predicate HasGeometry(g: GlyphInfo)
  {
    !IsEmpty(g) || g.utf32 in WHITE_SPACE
  }

  /** The descriptor entry of one glyph. */
  function CharOf(g: GlyphInfo, c: Config, d: Defaults): (ch: Char)
    ensures ch.xadvance == ToI16(g.xAdvance) && ch.chnl == 15
  {
    var geometry :=
      if HasGeometry(g) then
        Char(
          id := ToU32(g.utf32),
          x := ToU16(g.x),
          y := ToU16(g.y),
          width := ToU16(g.width + c.padding.left + c.padding.right),
          height := ToU16(g.height + c.padding.up + c.padding.down),
          xoffset := ToI16(g.xOffset - c.padding.left),
          yoffset := ToI16(g.yOffset - c.padding.up),
          xadvance := d.blank.xadvance,
          page := ToU8(g.page),
          chnl := d.blank.chnl)
      else d.blank;
    geometry.(xadvance := ToI16(g.xAdvance), chnl := 15)
  }

  /** The `chars` list: one entry per glyph, in code-point order. */
  function MakeChars(t: seq<Entry>, c: Config, d: Defaults): (chars: seq<Char>)
    ensures |chars| == |t|
  {
    var sorted := SortByCode(GlyphsOf(t));
    assert |sorted| == |multiset(sorted)| == |GlyphsOf(t)|;
    seq(|sorted|, i requires 0 <= i < |sorted| => CharOf(sorted[i], c, d))
  }

  /**
   The chars are the glyphs' entries in ascending code-point order, each glyph exactly as
   often as it is in the table.
   */
  lemma CharsAreSortedGlyphs(t: seq<Entry>, c: Config, d: Defaults)
    ensures var chars := MakeChars(t, c, d);
      exists sorted: seq<GlyphInfo> ::
        SortedByCode(sorted) && multiset(sorted) == multiset(GlyphsOf(t))
        && |sorted| == |chars| && forall i :: 0 <= i < |chars| ==> chars[i] == CharOf(sorted[i], c, d)
  {
    var sorted := SortByCode(GlyphsOf(t));
    assert |sorted| == |multiset(sorted)| == |GlyphsOf(t)|;
  }

  /** With code points below 2^32 the ids ascend as the glyphs do. */
  lemma CharIdsAscend(t: seq<Entry>, c: Config, d: Defaults, i: nat, j: nat)
    requires forall k :: 0 <= k < |t| ==> IsU32(t[k].glyph.utf32) && HasGeometry(t[k].glyph)
    requires i < j < |t|
    ensures MakeChars(t, c, d)[i].id <= MakeChars(t, c, d)[j].id
  {
    var gs := GlyphsOf(t);
    var sorted := SortByCode(gs);
    assert |sorted| == |multiset(sorted)| == |gs|;
    assert sorted[i] in multiset(gs) && sorted[j] in multiset(gs);
    var a :| 0 <= a < |gs| && gs[a] == sorted[i];
    var b :| 0 <= b < |gs| && gs[b] == sorted[j];
  }

  /** Every glyph of the table has its entry among the chars. */
  lemma EveryGlyphHasChar(t: seq<Entry>, c: Config, d: Defaults, e: Entry)
    requires e in t
    ensures CharOf(e.glyph, c, d) in MakeChars(t, c, d)
  {
    var gs := GlyphsOf(t);
    var sorted := SortByCode(gs);
    assert |sorted| == |multiset(sorted)| == |gs|;
    var k :| 0 <= k < |t| && t[k] == e;
    assert gs[k] == e.glyph;
    assert e.glyph in multiset(sorted);
    var i :| 0 <= i < |sorted| && sorted[i] == e.glyph;
    assert MakeChars(t, c, d)[i] == CharOf(e.glyph, c, d);
  }

  /**
   A glyph with pixels or a white-space code point gets its padded box and offsets; any other
   glyph keeps the default geometry. Both always get their advance and all four channels.
   */
  lemma CharGeometry(g: GlyphInfo, c: Config, d: Defaults)
    ensures var ch := CharOf(g, c, d);
      (HasGeometry(g) ==>
        ch.id == ToU32(g.utf32) && ch.x == ToU16(g.x) && ch.y == ToU16(g.y)
        && ch.width == ToU16(g.width + c.padding.left + c.padding.right)
        && ch.height == ToU16(g.height + c.padding.up + c.padding.down)
        && ch.xoffset == ToI16(g.xOffset - c.padding.left)
        && ch.yoffset == ToI16(g.yOffset - c.padding.up)
        && ch.page == ToU8(g.page))
      && (!HasGeometry(g) ==> ch == d.blank.(xadvance := ToI16(g.xAdvance), chnl := 15))
  {
  }

  // ---------------------------------------------------------------------------------------
  // Assembly

  /** The inputs of `writeFontInfoFile` besides the settings. */
  datatype Inputs = Inputs(
    glyphs: seq<Entry>,
    fileNames: seq<string>,
    pages: seq<Size>,
    facts: FontFacts,
    face: FtFont.Face,
    shape: Shaper)

  /**
   The descriptor `writeFontInfoFile` builds before choosing a format: it refuses texture
   names that occur twice, and the font's kerning errors end it.
   */
  function BuildFontInfo(c: Config, input: Inputs, d: Defaults): (r: Result<FontInfo>)
    ensures HasDuplicate(input.fileNames) ==> r == Err("textures have the same names")
    ensures r.Ok? ==> r.value.pages == input.fileNames && r.value.extraInfo == c.extraInfo
    ensures r.Ok? ==> r.value.info == MakeInfo(c, input.facts, d) && r.value.common == MakeCommon(input.pages, input.facts, d)
    ensures r.Ok? ==> r.value.chars == MakeChars(input.glyphs, c, d)
  {
    if HasDuplicate(input.fileNames) then Err("textures have the same names")
    else
      var kernings :- CollectKernings(input.glyphs, c.kerningPairs, input.face, input.shape);
      Ok(FontInfo(
        MakeInfo(c, input.facts, d),
        MakeCommon(input.pages, input.facts, d),
        input.fileNames,
        MakeChars(input.glyphs, c, d),
        kernings,
        c.extraInfo))
  }

  /** Kerning is the only other way the assembly fails; its records are the mode's table. */
  lemma BuildFontInfoKernings(c: Config, input: Inputs, d: Defaults)
    requires !HasDuplicate(input.fileNames)
    ensures var r := BuildFontInfo(c, input, d);
      var k := CollectKernings(input.glyphs, c.kerningPairs, input.face, input.shape);
      (r.Err? <==> k.Err?) && (r.Ok? ==> r.value.kernings == k.value)
  {
  }

  /** With well-typed defaults every field of the assembled record fits its C++ type. */
  lemma BuildFontInfoValid(c: Config, input: Inputs, d: Defaults)
    requires BuildFontInfo(c, input, d).Ok?
    requires IsU8(d.charset) && IsU8(d.outline) && IsU16(d.scaleW) && IsU16(d.scaleH) && ValidChar(d.blank)
    requires NameOr(input.facts.familyName, "unknown") == "unknown" || IsByteString(input.facts.familyName.value)
    requires NameOr(input.facts.styleName, "unknown") == "unknown" || IsByteString(input.facts.styleName.value)
    requires forall i :: 0 <= i < |input.fileNames| ==> IsByteString(input.fileNames[i])
    requires forall e :: e in input.glyphs ==> IsU32(e.glyph.utf32)
    ensures Valid(BuildFontInfo(c, input, d).value)
  {
    var f := BuildFontInfo(c, input, d).value;
    LiteralIsByteString();
    forall i | 0 <= i < |f.chars| ensures ValidChar(f.chars[i]) {
      var gs := GlyphsOf(input.glyphs);
      var sorted := SortByCode(gs);
      assert |sorted| == |multiset(sorted)| == |gs|;
      assert sorted[i] in multiset(gs);
    }
    forall i | 0 <= i < |f.kernings| ensures ValidKerning(f.kernings[i]) {
      KerningsValid(c, input, f.kernings[i]);
    }
  }

  lemma LiteralIsByteString()
    ensures IsByteString("unknown")
  {
  }

  lemma KerningsValid(c: Config, input: Inputs, x: Kerning)
    requires forall e :: e in input.glyphs ==> IsU32(e.glyph.utf32)
    requires CollectKernings(input.glyphs, c.kerningPairs, input.face, input.shape).Ok?
    requires x in CollectKernings(input.glyphs, c.kerningPairs, input.face, input.shape).value
    ensures ValidKerning(x)
  {
    var t := input.glyphs;
    if c.kerningPairs == Extended {
      ExtendedRecordsIff(t, input.shape, x);
    } else {
      BasicRecordsIff(t, KernFor(input.face, c.kerningPairs), x);
    }
  }
}
