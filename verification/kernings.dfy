/**
 The kerning table of `App::writeFontInfoFile`: every ordered pair of glyph-table entries
 (self-pairs included, first entry in the outer loop) is offered, pairs that involve a glyph
 of the secondary font are skipped, and only pairs with a non-zero amount are recorded.

 The amount comes from the font: `getKerning` in the basic and regular modes, and a HarfBuzz
 shaping of the two characters in the extended mode. The shaper is a parameter; its
 floating-point conversion of the advance to pixels happens inside it.
 */
module Kernings {
  import opened Wrappers
  import opened MachineInts
  import opened Glyphs
  import opened FontInfo
  import opened Configuration
  import FtFont

  type Pair = (Entry, Entry)

  /** One row of the nested loops: `left` against every entry of `cols`. */
  function Row(left: Entry, cols: seq<Entry>): (ps: seq<Pair>)
    ensures |ps| == |cols| && forall j :: 0 <= j < |cols| ==> ps[j] == (left, cols[j])
  {
    seq(|cols|, j requires 0 <= j < |cols| => (left, cols[j]))
  }

  /** The pairs in loop order: row by row. */
  function Pairs(rows: seq<Entry>, cols: seq<Entry>): seq<Pair>
  {
    if rows == [] then [] else Row(rows[0], cols) + Pairs(rows[1..], cols)
  }

  /** Every ordered pair is visited, and nothing else. */
  lemma {:induction false} PairsComplete(rows: seq<Entry>, cols: seq<Entry>, p: Pair)
    ensures p in Pairs(rows, cols) <==> p.0 in rows && p.1 in cols
  {
    if rows != [] {
      PairsComplete(rows[1..], cols, p);
      if p in Row(rows[0], cols) {
        var j :| 0 <= j < |cols| && Row(rows[0], cols)[j] == p;
      }
      if p.0 == rows[0] && p.1 in cols {
        var j :| 0 <= j < |cols| && cols[j] == p.1;
        assert Row(rows[0], cols)[j] == p;
      }
      assert p.0 in rows <==> p.0 == rows[0] || p.0 in rows[1..];
    }
  }

  /** No glyph of the pair comes from the secondary font. */
  predicate Eligible(p: Pair)
  {
    !p.0.glyph.secondaryFont && !p.1.glyph.secondaryFont
  }

  /** The record for a pair with the given amount (already in `int16_t`). */
  function KerningOf(p: Pair, amount: int): Kerning
  {
    Kerning(p.0.glyph.utf32, p.1.glyph.utf32, amount)
  }

  /** The font's kerning of two characters, as `getKerning` gives it. */
  type KernFunction = (nat, nat) -> Result<int>

  function KernOf(p: Pair, kern: KernFunction): Result<int>
  {
    kern(p.0.glyph.utf32, p.1.glyph.utf32)
  }

  /** The pair is recorded by the basic/regular loop with this amount. */
  predicate RecordedBasic(p: Pair, kern: KernFunction, x: Kerning)
  {
    Eligible(p) && KernOf(p, kern).Ok? && ToI16(KernOf(p, kern).value) != 0
    && x == KerningOf(p, ToI16(KernOf(p, kern).value))
  }

  /**
   The basic and regular loops: `static_cast<int16_t>(getKerning(...))`, kept when non-zero.
   A font error for any offered pair aborts the whole descriptor.
   */
  function BasicKernings(ps: seq<Pair>, kern: KernFunction): (r: Result<seq<Kerning>>)
    ensures r.Err? <==> exists p :: p in ps && Eligible(p) && KernOf(p, kern).Err?
    ensures r.Ok? ==> forall x :: x in r.value <==> exists p :: p in ps && RecordedBasic(p, kern, x)
  {
    if ps == [] then Ok([])
    else
      var p := ps[0];
      assert forall q :: q in ps <==> q == p || q in ps[1..];
      if !Eligible(p) then BasicKernings(ps[1..], kern)
      else
        var k :- KernOf(p, kern);
        var rest :- BasicKernings(ps[1..], kern);
        var amount := ToI16(k);
        if amount != 0 then
          assert RecordedBasic(p, kern, KerningOf(p, amount));
          Ok([KerningOf(p, amount)] + rest)
        else
          assert forall x :: !RecordedBasic(p, kern, x);
          Ok(rest)
  }

  /** What HarfBuzz returns for two characters: the glyph ids and the first advance in pixels. */
  datatype Shaped = Shaped(glyphs: seq<nat>, advance: int)

  type Shaper = (nat, nat) -> Shaped

  function ShapeOf(p: Pair, shape: Shaper): Shaped
  {
    shape(p.0.glyph.utf32, p.1.glyph.utf32)
  }

  /** Shaping kept the two glyphs: exactly two ids, equal to the two table keys. */
  predicate Unchanged(p: Pair, s: Shaped)
  {
    s.glyphs == [p.0.key, p.1.key]
  }

  /** The pair is recorded by the extended loop with this amount. */
  predicate RecordedExtended(p: Pair, shape: Shaper, x: Kerning)
  {
    var s := ShapeOf(p, shape);
    Eligible(p) && Unchanged(p, s) && s.advance != p.0.glyph.xAdvance
    && x == KerningOf(p, ToI16(s.advance - p.0.glyph.xAdvance))
  }

  /**
   The extended loop: a reshaped pair (other glyph count, other glyph ids) is dropped; a kept
   pair whose shaped advance differs from the first glyph's own advance records the difference.
   */
  function ExtendedKernings(ps: seq<Pair>, shape: Shaper): (r: seq<Kerning>)
    ensures forall x :: x in r <==> exists p :: p in ps && RecordedExtended(p, shape, x)
  {
    if ps == [] then []
    else
      var p := ps[0];
      assert forall q :: q in ps <==> q == p || q in ps[1..];
      var rest := ExtendedKernings(ps[1..], shape);
      var s := ShapeOf(p, shape);
      if Eligible(p) && Unchanged(p, s) && s.advance != p.0.glyph.xAdvance then
        var k := KerningOf(p, ToI16(s.advance - p.0.glyph.xAdvance));
        assert RecordedExtended(p, shape, k);
        [k] + rest
      else
        assert forall x :: !RecordedExtended(p, shape, x);
        rest
  }

  /** The font's kerning mode for a `--kerning-pairs` value other than `disabled` and `extended`. */
  function FontMode(mode: KerningPairs): FtFont.KerningMode
  {
    if mode == Regular then FtFont.Regular else FtFont.Basic
  }

  /** `getKerning` of the font in the selected mode. */
  function KernFor(face: FtFont.Face, mode: KerningPairs): KernFunction
  {
    (l: nat, r: nat) => FtFont.GetKerning(face, l, r, FontMode(mode))
  }

  /**
   The kerning table for the selected mode: none when disabled, the shaper's differences in
   the extended mode, the font's kerning otherwise.
   */
  function CollectKernings(t: seq<Entry>, mode: KerningPairs, face: FtFont.Face, shape: Shaper): (r: Result<seq<Kerning>>)
    ensures mode == Disabled ==> r == Ok([])
    ensures mode == Extended ==> r == Ok(ExtendedKernings(Pairs(t, t), shape))
    ensures mode == Basic || mode == Regular ==> r == BasicKernings(Pairs(t, t), KernFor(face, mode))
  {
    match mode
    case Disabled => Ok([])
    case Extended => Ok(ExtendedKernings(Pairs(t, t), shape))
    case _ => BasicKernings(Pairs(t, t), KernFor(face, mode))
  }

  /** The font's kerning fails for some pair of primary-font entries exactly when the table does. */
  lemma BasicFailsIff(t: seq<Entry>, kern: KernFunction)
    ensures BasicKernings(Pairs(t, t), kern).Err?
      <==> exists a, b :: a in t && b in t && Eligible((a, b)) && KernOf((a, b), kern).Err?
  {
    var ps := Pairs(t, t);
    if BasicKernings(ps, kern).Err? {
      var p :| p in ps && Eligible(p) && KernOf(p, kern).Err?;
      PairsComplete(t, t, p);
      assert p == (p.0, p.1);
    }
    if exists a, b :: a in t && b in t && Eligible((a, b)) && KernOf((a, b), kern).Err? {
      var a, b :| a in t && b in t && Eligible((a, b)) && KernOf((a, b), kern).Err?;
      PairsComplete(t, t, (a, b));
    }
  }

  /**
   In the basic and regular modes, a record is in the table exactly when it is the non-zero
   `int16_t` kerning of two primary-font entries of the glyph table.
   */
  lemma BasicRecordsIff(t: seq<Entry>, kern: KernFunction, x: Kerning)
    requires BasicKernings(Pairs(t, t), kern).Ok?
    ensures x in BasicKernings(Pairs(t, t), kern).value
      <==> exists a, b :: a in t && b in t && RecordedBasic((a, b), kern, x)
  {
    var ps := Pairs(t, t);
    if x in BasicKernings(ps, kern).value {
      var p :| p in ps && RecordedBasic(p, kern, x);
      PairsComplete(t, t, p);
      assert p == (p.0, p.1);
    }
    if exists a, b :: a in t && b in t && RecordedBasic((a, b), kern, x) {
      var a, b :| a in t && b in t && RecordedBasic((a, b), kern, x);
      PairsComplete(t, t, (a, b));
    }
  }

  /**
   In the extended mode, a record is in the table exactly when two primary-font entries shape
   to their own two glyphs with an advance other than the first glyph's.
   */
  lemma ExtendedRecordsIff(t: seq<Entry>, shape: Shaper, x: Kerning)
    ensures x in ExtendedKernings(Pairs(t, t), shape)
      <==> exists a, b :: a in t && b in t && RecordedExtended((a, b), shape, x)
  {
    var ps := Pairs(t, t);
    if x in ExtendedKernings(ps, shape) {
      var p :| p in ps && RecordedExtended(p, shape, x);
      PairsComplete(t, t, p);
      assert p == (p.0, p.1);
    }
    if exists a, b :: a in t && b in t && RecordedExtended((a, b), shape, x) {
      var a, b :| a in t && b in t && RecordedExtended((a, b), shape, x);
      PairsComplete(t, t, (a, b));
    }
  }

  /** No record involves a glyph of the secondary font, in any mode. */
  lemma NoSecondaryFontRecords(t: seq<Entry>, mode: KerningPairs, face: FtFont.Face, shape: Shaper, x: Kerning)
    requires CollectKernings(t, mode, face, shape).Ok?
    requires x in CollectKernings(t, mode, face, shape).value
    ensures exists a, b :: a in t && b in t && !a.glyph.secondaryFont && !b.glyph.secondaryFont
              && x.first == a.glyph.utf32 && x.second == b.glyph.utf32
  {
    if mode == Extended {
      ExtendedRecordsIff(t, shape, x);
      var a, b :| a in t && b in t && RecordedExtended((a, b), shape, x);
    } else {
      BasicRecordsIff(t, KernFor(face, mode), x);
      var a, b :| a in t && b in t && RecordedBasic((a, b), KernFor(face, mode), x);
    }
  }
}
