/**
 The arithmetic of the FreeType wrapper `ft::Font`: the 26.6 fixed-point rounding macros,
 the face metrics of the constructor, per-glyph metrics, style flags and the kerning
 rounding of `getKerning`. FreeType itself is not modelled: each call into it is a field
 of `Face` (an oracle) or an input value.
 */
module FtFont {
  import opened Wrappers
  import opened MachineInts
  import Decimal

  // ---------------------------------------------------------------------------
  // FT_FLOOR / FT_CEIL on FT_Pos (a 64-bit signed long)
  // ---------------------------------------------------------------------------

  /** C++ integer division: the quotient is truncated toward zero. */
  function CDiv(a: int, b: int): (q: int)
    requires b > 0
    ensures a >= 0 ==> q == a / b
    ensures a % b == 0 ==> q * b == a
  {
    if a >= 0 then a / b
    else
      var n := -a;
      if a % b == 0 then
        DivModUnique(n, b, -(a / b), 0);
        -(n / b)
      else -(n / b)
  }

  /** `X & -64` on a 64-bit two's complement value: AND with the bit pattern of -64. */
  function AndMinus64(x: int): (r: int)
    requires IsI64(x)
    ensures r == x - x % 64
  {
    var u := Unsigned(x, TWO_64);
    Pow2Values();
    AndHighMask(u, 64, 6);
    assert Unsigned(-64, TWO_64) == Pow2(64) - Pow2(6);
    var a := BitAnd(u, Unsigned(-64, TWO_64));
    UnsignedResidue(x);
    Signed(a, TWO_64)
  }

  lemma UnsignedResidue(x: int)
    requires IsI64(x)
    ensures Unsigned(x, TWO_64) % 64 == x % 64
    ensures x - x % 64 >= -TWO_63
  {
    if x < 0 {
      DivModUnique(x + TWO_64, 64, x / 64 + TWO_64 / 64, x % 64);
    }
    DivModUnique(-TWO_63, 64, -TWO_63 / 64, 0);
  }

  /** `#define FT_FLOOR(X) (((X) & -64) / 64)` */
  function FtFloor(x: int): int
    requires IsI64(x)
  {
    CDiv(AndMinus64(x), 64)
  }

  /** `#define FT_CEIL(X) ((((X) + 63) & -64) / 64)`; the addition must not overflow FT_Pos. */
  function FtCeil(x: int): int
    requires IsI64(x) && IsI64(x + 63)
  {
    CDiv(AndMinus64(x + 63), 64)
  }

  /** FT_FLOOR is the mathematical floor of x / 64, negative values included. */
  lemma FtFloorIsFloor(x: int)
    requires IsI64(x)
    ensures FtFloor(x) * 64 <= x < FtFloor(x) * 64 + 64
  {
    var m := x - x % 64;
    DivModUnique(m, 64, x / 64, 0);
  }

  /** FT_CEIL is the mathematical ceiling of x / 64, negative values included. */
  lemma FtCeilIsCeil(x: int)
    requires IsI64(x) && IsI64(x + 63)
    ensures FtCeil(x) * 64 - 64 < x <= FtCeil(x) * 64
  {
    var y := x + 63;
    DivModUnique(y - y % 64, 64, y / 64, 0);
  }

  /** For every 32-bit value the two macros agree exactly on the multiples of 64. */
  lemma FloorEqualsCeilIffMultiple(x: int)
    requires IsI32(x)
    ensures FtFloor(x) == FtCeil(x) <==> x % 64 == 0
  {
    FtFloorIsFloor(x);
    FtCeilIsCeil(x);
    if x % 64 == 0 {
      DivModUnique(x, 64, x / 64, 0);
    } else {
      DivModUnique(x, 64, x / 64, x % 64);
    }
  }

  // ---------------------------------------------------------------------------
  // Face metrics (constructor)
  // ---------------------------------------------------------------------------

  datatype FontMetrics = FontMetrics(height: int, yMax: int, yMin: int, ascent: int, descent: int, totalHeight: int)

  /**
   What the constructor reads from FreeType. For a scalable face the 26.6 values are the
   products `FT_MulFix(..., y_scale)` and `lineHeight` is the already rounded
   `lround(size->metrics.height / 64)`; a bitmap face lists the heights of its fixed sizes.
   */
  datatype FaceSizes =
    | ScalableSizes(bboxYMin: int, bboxYMax: int, ascender: int, descender: int, lineHeight: int)
    | FixedSizes(heights: seq<int>)

  predicate SizesInRange(s: FaceSizes)
  {
    match s
    case ScalableSizes(lo, hi, a, d, _) => IsI32(lo) && IsI32(hi) && IsI32(a) && IsI32(d)
    case FixedSizes(hs) => |hs| > 0
  }

  /** Which fixed size a bitmap face uses: the requested index, clamped to the last size. */
  function ClampSizeIndex(ptsize: nat, numFixedSizes: nat): (r: nat)
    requires numFixedSizes > 0
    ensures r < numFixedSizes && r <= ptsize
    ensures r == ptsize || r == numFixedSizes - 1
  {
    if ptsize >= numFixedSizes then numFixedSizes - 1 else ptsize
  }

  /** The metric fields of the constructor (FtFont.h:69-109 and 128). */
  function FaceMetrics(s: FaceSizes, ptsize: nat): (m: FontMetrics)
    requires SizesInRange(s)
    ensures m.totalHeight == m.yMax - m.yMin
    ensures s.FixedSizes? ==>
      var h := s.heights[ClampSizeIndex(ptsize, |s.heights|)];
      m.height == h && m.ascent == h && m.descent == 0 && m.yMin == 0 && m.yMax == h && m.totalHeight == h
    ensures s.ScalableSizes? ==>
      m.height == s.lineHeight &&
      m.yMin * 64 <= s.bboxYMin && s.bboxYMax <= m.yMax * 64 &&
      m.ascent * 64 - 64 < s.ascender <= m.ascent * 64 &&
      m.descent * 64 <= s.descender < m.descent * 64 + 64
  {
    match s
    case ScalableSizes(lo, hi, a, d, lh) =>
      FtFloorIsFloor(lo);
      FtCeilIsCeil(hi);
      FtCeilIsCeil(a);
      FtFloorIsFloor(d);
      var yMin := FtFloor(lo);
      var yMax := FtCeil(hi);
      FontMetrics(lh, yMax, yMin, FtCeil(a), FtFloor(d), yMax - yMin)
    case FixedSizes(hs) =>
      var h := hs[ClampSizeIndex(ptsize, |hs|)];
      FontMetrics(h, h, 0, h, 0, h - 0)
  }

  // ---------------------------------------------------------------------------
  // Style flags
  // ---------------------------------------------------------------------------

  const FT_STYLE_FLAG_ITALIC: nat := 1
  const FT_STYLE_FLAG_BOLD: nat := 2
  const TTF_STYLE_BOLD: nat := 1
  const TTF_STYLE_ITALIC: nat := 2

  /** `face_style`: the FreeType style flags translated to the TTF_STYLE bits. */
  function FaceStyle(styleFlags: nat): nat
  {
    (if BitAnd(styleFlags, FT_STYLE_FLAG_BOLD) != 0 then TTF_STYLE_BOLD else 0)
    + (if BitAnd(styleFlags, FT_STYLE_FLAG_ITALIC) != 0 then TTF_STYLE_ITALIC else 0)
  }

  /** `isBold()`: the default style equals the face style. */
  function IsBold(styleFlags: nat): bool
  {
    BitAnd(FaceStyle(styleFlags), TTF_STYLE_BOLD) != 0
  }

  /** `isItalic()` */
  function IsItalic(styleFlags: nat): bool
  {
    BitAnd(FaceStyle(styleFlags), TTF_STYLE_ITALIC) != 0
  }

  lemma {:induction false} AndPow2(a: nat, k: nat)
    ensures BitAnd(a, Pow2(k)) != 0 <==> BitSet(a, k)
  {
    if a != 0 && k == 0 {
      AndZero(a / 2);
    } else if a != 0 && k > 0 {
      AndPow2(a / 2, k - 1);
      assert Pow2(k) / 2 == Pow2(k - 1) && Pow2(k) % 2 == 0;
      assert a / Pow2(k) == (a / 2) / Pow2(k - 1) by {
        DivDiv(a, 2, Pow2(k - 1));
      }
    }
  }

  lemma DivDiv(a: nat, b: nat, c: nat)
    requires b > 0 && c > 0
    ensures a / (b * c) == (a / b) / c
  {
    var q := (a / b) / c;
    var r := (a / b) % c;
    var s := a % b;
    assert a / b == q * c + r;
    assert a == (q * c + r) * b + s;
    assert a == q * (b * c) + (r * b + s);
    assert r * b + s < b * c by {
      assert r * b <= (c - 1) * b;
    }
    DivModUnique(a, b * c, q, r * b + s);
  }

  /** `isBold()` holds exactly when the face carries FT_STYLE_FLAG_BOLD (bit 1). */
  lemma BoldIffFlag(styleFlags: nat)
    ensures IsBold(styleFlags) <==> BitSet(styleFlags, 1)
    ensures IsItalic(styleFlags) <==> BitSet(styleFlags, 0)
  {
    assert Pow2(0) == 1 && Pow2(1) == 2;
    AndPow2(styleFlags, 0);
    AndPow2(styleFlags, 1);
    var st := FaceStyle(styleFlags);
    AndPow2(st, 0);
    AndPow2(st, 1);
  }

  // ---------------------------------------------------------------------------
  // Glyph metrics (renderGlyph without a target buffer)
  // ---------------------------------------------------------------------------

  /** The slot metrics FreeType reports for a loaded glyph (26.6 values and bitmap size). */
  datatype SlotMetrics = SlotMetrics(bitmapWidth: nat, bitmapRows: nat, horiBearingX: int, horiBearingY: int, horiAdvance: int, lsbDelta: int, rsbDelta: int)

  datatype GlyphMetrics = GlyphMetrics(width: nat, height: nat, horiBearingX: int, horiBearingY: int, horiAdvance: int, lsbDelta: int, rsbDelta: int)

  predicate SlotInRange(s: SlotMetrics)
  {
    IsI32(s.horiBearingX) && IsI32(s.horiBearingY) && IsI32(s.horiAdvance)
  }

  /** The pixel metrics of `renderGlyph`: bearings rounded down, advance rounded up. */
  function GlyphMetricsOf(s: SlotMetrics): (g: GlyphMetrics)
    requires SlotInRange(s)
    ensures g.width == s.bitmapWidth && g.height == s.bitmapRows
    ensures g.horiBearingX * 64 <= s.horiBearingX < g.horiBearingX * 64 + 64
    ensures g.horiBearingY * 64 <= s.horiBearingY < g.horiBearingY * 64 + 64
    ensures g.horiAdvance * 64 - 64 < s.horiAdvance <= g.horiAdvance * 64
    ensures g.lsbDelta == s.lsbDelta && g.rsbDelta == s.rsbDelta
  {
    FtFloorIsFloor(s.horiBearingX);
    FtFloorIsFloor(s.horiBearingY);
    FtCeilIsCeil(s.horiAdvance);
    GlyphMetrics(s.bitmapWidth, s.bitmapRows, FtFloor(s.horiBearingX), FtFloor(s.horiBearingY),
                 FtCeil(s.horiAdvance), s.lsbDelta, s.rsbDelta)
  }

  // ---------------------------------------------------------------------------
  // Kerning (getKerning)
  // ---------------------------------------------------------------------------

  datatype KerningMode = Basic | Regular | Extended

  datatype Deltas = Deltas(lsbDelta: int, rsbDelta: int)

  /** What renderGlyph's FT_Load_Glyph gives: the side-bearing deltas, or FreeType's error code. */
  datatype GlyphLoad = Loaded(deltas: Deltas) | LoadFailed(error: int)

  /**
   The FreeType face as `getKerning` uses it. `kernX(l, r, unfitted)` is the x component
   FT_Get_Kerning reports for two glyph indices (None: FreeType returned an error);
   `load(g)` is what renderGlyph gets from loading glyph index `g`.
   */
  datatype Face = Face(
    scalable: bool,
    hasKerning: bool,
    charIndex: nat -> nat,
    kernX: (nat, nat, bool) -> Option<int>,
    load: nat -> GlyphLoad)

  /** `std::floor((x + 32) / 64.f)`, exact in integers. */
  function RoundKerning(x: int): (r: int)
    ensures 64 * r - 32 <= x < 64 * r + 32
  {
    (x + 32) / 64
  }

  /** The raw kerning k.x: zero without a kerning table, otherwise FreeType's answer. */
  function RawKerning(face: Face, left: nat, right: nat, mode: KerningMode): Result<int>
  {
    if !face.hasKerning then Ok(0)
    else
      match face.kernX(face.charIndex(left), face.charIndex(right), mode != Basic)
      case Some(k) => Ok(k)
      case None => Err("Couldn't find glyphs kerning")
  }

  /** The message renderGlyph throws when FreeType cannot load a glyph. */
  function LoadError(glyph: nat, error: int): string
  {
    "Error Load glyph " + Decimal.NatToString(glyph) + " " + Decimal.IntToString(error)
  }

  function LoadDeltas(face: Face, glyph: nat): (r: Result<Deltas>)
    ensures r.Ok? <==> face.load(glyph).Loaded?
    ensures r.Ok? ==> r.value == face.load(glyph).deltas
    ensures r.Err? ==> r.msg == LoadError(glyph, face.load(glyph).error)
  {
    match face.load(glyph)
    case Loaded(d) => Ok(d)
    case LoadFailed(e) => Err(LoadError(glyph, e))
  }

  /** Whether getKerning refines the raw value with the side-bearing deltas. */
  predicate UsesDeltas(mode: KerningMode, k: int)
  {
    (mode == Regular && k != 0) || mode == Extended
  }

  /**
   The rounding step of getKerning once the deltas are known:
   `floor((secondLsbDelta - firstRsbDelta + k + 32) / 64)` for scalable faces, `k` itself for
   bitmap faces, whose kerning is already in pixels.
   */
  function KerningFromParts(scalable: bool, k: int, firstRsb: int, secondLsb: int): int
  {
    if !scalable then k else RoundKerning(secondLsb - firstRsb + k)
  }

  /**
   getKerning with the deltas loaded from glyph indices `gl` and `gr`; the two variants below
   differ only in which indices they pass.
   */
  function KerningWith(face: Face, left: nat, right: nat, mode: KerningMode, gl: nat, gr: nat): (r: Result<int>)
    ensures !face.hasKerning && mode != Extended ==> r == Ok(0)
    ensures r.Ok? ==> RawKerning(face, left, right, mode).Ok?
    ensures r.Ok? && !face.scalable ==> r == RawKerning(face, left, right, mode)
    ensures r.Ok? && face.scalable && !UsesDeltas(mode, RawKerning(face, left, right, mode).value) ==>
      r.value == RoundKerning(RawKerning(face, left, right, mode).value)
    ensures r.Ok? && face.scalable && UsesDeltas(mode, RawKerning(face, left, right, mode).value) ==>
      face.load(gl).Loaded? && face.load(gr).Loaded? &&
      r.value == RoundKerning(face.load(gr).deltas.lsbDelta - face.load(gl).deltas.rsbDelta
                              + RawKerning(face, left, right, mode).value)
    ensures RawKerning(face, left, right, mode).Ok? && face.scalable
            && UsesDeltas(mode, RawKerning(face, left, right, mode).value) && face.load(gl).LoadFailed? ==>
      r == Err(LoadError(gl, face.load(gl).error))
  {
    var k :- RawKerning(face, left, right, mode);
    if !face.scalable then Ok(k)
    else
      var use := UsesDeltas(mode, k);
      var first :- if use then LoadDeltas(face, gl) else Ok(Deltas(0, 0));
      var second :- if use then LoadDeltas(face, gr) else Ok(Deltas(0, 0));
      Ok(KerningFromParts(true, k, first.rsbDelta, second.lsbDelta))
  }

  /**
   getKerning exactly as written: the deltas are loaded by passing the CHARACTER CODES
   `left` and `right` to renderGlyph, which loads its argument as a glyph index.
   */
  function GetKerningAsWritten(face: Face, left: nat, right: nat, mode: KerningMode): (r: Result<int>)
    ensures !face.hasKerning && mode != Extended ==> r == Ok(0)
    ensures r.Ok? ==> RawKerning(face, left, right, mode).Ok?
    ensures r.Ok? && !face.scalable ==> r == RawKerning(face, left, right, mode)
    ensures r.Ok? && face.scalable && !UsesDeltas(mode, RawKerning(face, left, right, mode).value) ==>
      64 * r.value - 32 <= RawKerning(face, left, right, mode).value < 64 * r.value + 32
    ensures r.Ok? && face.scalable && UsesDeltas(mode, RawKerning(face, left, right, mode).value) ==>
      var k := RawKerning(face, left, right, mode).value;
      face.load(left).Loaded? && face.load(right).Loaded? &&
      r.value == RoundKerning(face.load(right).deltas.lsbDelta - face.load(left).deltas.rsbDelta + k)
    ensures RawKerning(face, left, right, mode).Ok? && face.scalable
            && UsesDeltas(mode, RawKerning(face, left, right, mode).value) && face.load(left).LoadFailed? ==>
      r == Err(LoadError(left, face.load(left).error))
  {
    KerningWith(face, left, right, mode, left, right)
  }

  /**
   getKerning as evidently intended: the deltas belong to the glyphs that are kerned,
   `FT_Get_Char_Index(face, left)` and `FT_Get_Char_Index(face, right)`.
   */
  function GetKerning(face: Face, left: nat, right: nat, mode: KerningMode): (r: Result<int>)
    ensures !face.hasKerning && mode != Extended ==> r == Ok(0)
    ensures r.Ok? ==> RawKerning(face, left, right, mode).Ok?
    ensures r.Ok? && !face.scalable ==> r == RawKerning(face, left, right, mode)
    ensures r.Ok? && face.scalable && !UsesDeltas(mode, RawKerning(face, left, right, mode).value) ==>
      64 * r.value - 32 <= RawKerning(face, left, right, mode).value < 64 * r.value + 32
    ensures r.Ok? && face.scalable && UsesDeltas(mode, RawKerning(face, left, right, mode).value) ==>
      var k := RawKerning(face, left, right, mode).value;
      var first := face.load(face.charIndex(left));
      var second := face.load(face.charIndex(right));
      first.Loaded? && second.Loaded? &&
      r.value == RoundKerning(second.deltas.lsbDelta - first.deltas.rsbDelta + k)
    ensures RawKerning(face, left, right, mode).Ok? && face.scalable
            && UsesDeltas(mode, RawKerning(face, left, right, mode).value)
            && face.load(face.charIndex(left)).LoadFailed? ==>
      r == Err(LoadError(face.charIndex(left), face.load(face.charIndex(left)).error))
  {
    KerningWith(face, left, right, mode, face.charIndex(left), face.charIndex(right))
  }

  /**
   The corrected getKerning is a function of the two glyphs: characters that map to the
   same glyph indices are kerned alike.
   */
  lemma KerningDependsOnGlyphsOnly(face: Face, l1: nat, r1: nat, l2: nat, r2: nat, mode: KerningMode)
    requires face.charIndex(l1) == face.charIndex(l2) && face.charIndex(r1) == face.charIndex(r2)
    ensures GetKerning(face, l1, r1, mode) == GetKerning(face, l2, r2, mode)
  {
  }

  /**
   A scalable face with a kerning table whose glyph indices are not the character codes
   ('A' is glyph 36, 'V' is glyph 57), kerning -32 for every pair and a right side-bearing
   delta of 40 on glyph 65 only.
   */
  function ShiftedFace(): Face
  {
    Face(true, true,
         c => if c == 65 then 36 else if c == 86 then 57 else c,
         (l, r, unfitted) => Some(-32),
         g => if g == 65 then Loaded(Deltas(0, 40)) else Loaded(Deltas(0, 0)))
  }

  /**
   With the as-written code, 'A' (65) followed by 'V' (86) in Regular mode is rounded with
   the delta of glyph 65 (some other glyph) instead of glyph 36 ('A'), giving -1 instead of 0;
   and 'A' and a code point sharing its glyph are kerned differently.
   */
  lemma KerningAsWrittenUsesWrongGlyph()
    ensures GetKerningAsWritten(ShiftedFace(), 65, 86, Regular) == Ok(-1)
    ensures GetKerning(ShiftedFace(), 65, 86, Regular) == Ok(0)
    ensures ShiftedFace().charIndex(65) == ShiftedFace().charIndex(36)
    ensures GetKerningAsWritten(ShiftedFace(), 36, 86, Regular) == Ok(0)
  {
  }
}
