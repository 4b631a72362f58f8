/**
 The CBOR descriptor (`FontInfo::writeToCborFile`) as the sequence of encoder calls it makes.

 The file is one indefinite-length array (section 3.2.2 of RFC 8949): the array start, the
 items, and a break. The items are the text string "BMF", the format version 3 and 1, 15 info
 scalars, 10 common scalars, a definite array of the page names, a definite array holding 10
 numbers per char and a definite array holding 3 numbers per kerning pair.

 `write_uint` and `write_int` of a non-negative value emit the same unsigned integer, so both
 are the one token `Int`; the byte encoding of each token is not part of this model.
 */
module CborCodec {
  import opened Wrappers
  import opened MachineInts
  import opened FontInfo

  /** One call on the encoder. */
  datatype Token =
    | Int(n: int)          // write_uint / write_int: major type 0, or 1 for a negative value
    | Bool(b: bool)        // write_bool: simple value true or false
    | Str(s: string)       // write_string: a text string
    | Array(count: nat)    // write_array: the head of a definite-length array
    | IndefArray           // write_indefinite_array: the start of an indefinite-length array
    | Break                // write_break: the end of the indefinite-length array

  /** A token that is a data item on its own. */
  predicate IsScalar(t: Token)
  {
    t.Int? || t.Bool? || t.Str?
  }

  predicate AllScalars(ts: seq<Token>)
  {
    forall i :: 0 <= i < |ts| ==> IsScalar(ts[i])
  }

  // ---------------------------------------------------------------------------------------
  // Writer

  const HEADER: seq<Token> := [Str("BMF"), Int(3), Int(1)]

  /** The info block; a Unicode descriptor writes charset 0. */
  function InfoScalars(i: Info): seq<Token>
  {
    [Int(i.size), Bool(i.smooth), Bool(i.unicode), Bool(i.italic), Bool(i.bold),
     Int(WrittenCharset(i)), Int(i.stretchH), Int(i.aa), Int(i.paddingUp), Int(i.paddingRight),
     Int(i.paddingDown), Int(i.paddingLeft), Int(i.spacingHor), Int(i.spacingVer), Int(i.outline)]
  }

  /** The common block; the page count is cast to `uint16_t`. */
  function CommonScalars(f: FontInfo): seq<Token>
  {
    var c := f.common;
    [Int(c.lineHeight), Int(c.base), Int(c.scaleW), Int(c.scaleH), Int(ToU16(|f.pages|)),
     Bool(c.packed), Int(c.alphaChnl), Int(c.redChnl), Int(c.greenChnl), Int(c.blueChnl)]
  }

  /** The 28 scalars between the array start and the page array. */
  function Fixed(f: FontInfo): seq<Token>
  {
    HEADER + InfoScalars(f.info) + CommonScalars(f)
  }

  function Strs(pages: seq<string>): (ts: seq<Token>)
    ensures |ts| == |pages| && forall i :: 0 <= i < |pages| ==> ts[i] == Str(pages[i])
  {
    seq(|pages|, i requires 0 <= i < |pages| => Str(pages[i]))
  }

  function CharScalars(c: Char): seq<Token>
  {
    [Int(c.id), Int(c.x), Int(c.y), Int(c.width), Int(c.height), Int(c.xoffset), Int(c.yoffset),
     Int(c.xadvance), Int(c.page), Int(c.chnl)]
  }

  /** The chars, ten numbers each, one char after the other. */
  function CharsScalars(cs: seq<Char>): (ts: seq<Token>)
    ensures |ts| == 10 * |cs|
  {
    if cs == [] then [] else CharScalars(cs[0]) + CharsScalars(cs[1..])
  }

  function KerningScalars(k: Kerning): seq<Token>
  {
    [Int(k.first), Int(k.second), Int(k.amount)]
  }

  function KerningsScalars(ks: seq<Kerning>): (ts: seq<Token>)
    ensures |ts| == 3 * |ks|
  {
    if ks == [] then [] else KerningScalars(ks[0]) + KerningsScalars(ks[1..])
  }

  /** A definite-length array: its head, then its items. */
  function ArrayOf(items: seq<Token>): seq<Token>
  {
    [Array(|items|)] + items
  }

  /** The page, char and kerning arrays, then the break. */
  function Tail(f: FontInfo): seq<Token>
  {
    ArrayOf(Strs(f.pages)) + (ArrayOf(CharsScalars(f.chars)) + (ArrayOf(KerningsScalars(f.kernings)) + [Break]))
  }

  function Stream(f: FontInfo): seq<Token>
  {
    [IndefArray] + (Fixed(f) + Tail(f))
  }

  const EXTRA_INFO_ERROR := "--extra-info flag is not compatible with cbor format"

  /** The writer refuses a descriptor with extra info before it opens the file. */
  function Write(f: FontInfo): (r: Result<seq<Token>>)
    ensures r.Err? <==> f.extraInfo
    ensures r.Err? ==> r.msg == EXTRA_INFO_ERROR
  {
    if f.extraInfo then Err(EXTRA_INFO_ERROR) else Ok(Stream(f))
  }

  // ---------------------------------------------------------------------------------------
  // Data items (section 3 of RFC 8949)

  /**
   The number of tokens one data item takes at the start of `ts`: a scalar is one token, a
   definite array its head and `count` items, an indefinite array its start, items up to a
   break, and the break.
   */
  function Item(ts: seq<Token>): (r: Option<nat>)
    ensures r.Some? ==> 0 < r.value <= |ts|
    decreases |ts|, 0
  {
    if ts == [] then None
    else
      match ts[0]
      case Break => None
      case Array(count) =>
        (match Items(ts[1..], count)
         case None => None
         case Some(k) => Some(1 + k))
      case IndefArray =>
        (match UntilBreak(ts[1..])
         case None => None
         case Some(k) => Some(1 + k))
      case _ => Some(1)
  }

  /** The tokens taken by `count` data items in a row. */
  function Items(ts: seq<Token>, count: nat): (r: Option<nat>)
    ensures r.Some? ==> r.value <= |ts|
    decreases |ts|, 1, count
  {
    if count == 0 then Some(0)
    else
      match Item(ts)
      case None => None
      case Some(k) =>
        match Items(ts[k..], count - 1)
        case None => None
        case Some(m) => Some(k + m)
  }

  /** The tokens taken by data items up to a break, the break included. */
  function UntilBreak(ts: seq<Token>): (r: Option<nat>)
    ensures r.Some? ==> 0 < r.value <= |ts|
    decreases |ts|, 1, 0
  {
    if ts == [] then None
    else if ts[0] == Break then Some(1)
    else
      match Item(ts)
      case None => None
      case Some(k) =>
        match UntilBreak(ts[k..])
        case None => None
        case Some(m) => Some(k + m)
  }

  /** The number of items of the indefinite array, as a reader counts them. */
  function CountUntilBreak(ts: seq<Token>): (r: Option<nat>)
    decreases |ts|
  {
    if ts == [] then None
    else if ts[0] == Break then Some(0)
    else
      match Item(ts)
      case None => None
      case Some(k) =>
        match CountUntilBreak(ts[k..])
        case None => None
        case Some(m) => Some(1 + m)
  }

  lemma {:induction false} ItemsOfScalars(ss: seq<Token>, rest: seq<Token>)
    requires AllScalars(ss)
    ensures Items(ss + rest, |ss|) == Some(|ss|)
  {
    if ss != [] {
      var ts := ss + rest;
      assert ts[0] == ss[0];
      assert ts[1..] == ss[1..] + rest;
      ItemsOfScalars(ss[1..], rest);
    }
  }

  lemma {:induction false} ScalarsThen(ss: seq<Token>, rest: seq<Token>, m: nat, c: nat)
    requires AllScalars(ss)
    requires UntilBreak(rest) == Some(m) && CountUntilBreak(rest) == Some(c)
    ensures UntilBreak(ss + rest) == Some(|ss| + m)
    ensures CountUntilBreak(ss + rest) == Some(|ss| + c)
  {
    if ss != [] {
      var ts := ss + rest;
      assert ts[0] == ss[0];
      assert Item(ts) == Some(1);
      assert ts[1..] == ss[1..] + rest;
      ScalarsThen(ss[1..], rest, m, c);
      ScalarStep(ts);
    } else {
      assert ss + rest == rest;
    }
  }

  /** A scalar adds one token and one item before what follows it. */
  lemma ScalarStep(ts: seq<Token>)
    requires ts != [] && IsScalar(ts[0])
    ensures UntilBreak(ts) == match UntilBreak(ts[1..]) case None => None case Some(m) => Some(1 + m)
    ensures CountUntilBreak(ts) == match CountUntilBreak(ts[1..]) case None => None case Some(c) => Some(1 + c)
  {
    assert Item(ts) == Some(1);
  }

  lemma ArrayThen(items: seq<Token>, rest: seq<Token>, m: nat, c: nat)
    requires AllScalars(items)
    requires UntilBreak(rest) == Some(m) && CountUntilBreak(rest) == Some(c)
    ensures UntilBreak(ArrayOf(items) + rest) == Some(1 + |items| + m)
    ensures CountUntilBreak(ArrayOf(items) + rest) == Some(1 + c)
  {
    var ts := ArrayOf(items) + rest;
    assert ts[0] == Array(|items|);
    assert ts[1..] == items + rest;
    ItemsOfScalars(items, rest);
    assert Item(ts) == Some(1 + |items|);
    assert ts[1 + |items|..] == rest;
  }

  lemma {:induction false} CharsAreScalars(cs: seq<Char>)
    ensures AllScalars(CharsScalars(cs))
  {
    if cs != [] {
      CharsAreScalars(cs[1..]);
      var ts := CharsScalars(cs);
      assert forall i :: 0 <= i < |ts| ==> ts[i] == if i < 10 then CharScalars(cs[0])[i] else CharsScalars(cs[1..])[i - 10];
    }
  }

  lemma {:induction false} KerningsAreScalars(ks: seq<Kerning>)
    ensures AllScalars(KerningsScalars(ks))
  {
    if ks != [] {
      KerningsAreScalars(ks[1..]);
      var ts := KerningsScalars(ks);
      assert forall i :: 0 <= i < |ts| ==> ts[i] == if i < 3 then KerningScalars(ks[0])[i] else KerningsScalars(ks[1..])[i - 3];
    }
  }

  /** After the fixed scalars come three arrays and the break. */
  lemma TailItems(f: FontInfo)
    ensures UntilBreak(Tail(f)) == Some(|Tail(f)|)
    ensures CountUntilBreak(Tail(f)) == Some(3)
  {
    var brk: seq<Token> := [Break];
    var kerns := ArrayOf(KerningsScalars(f.kernings)) + brk;
    var chars := ArrayOf(CharsScalars(f.chars)) + kerns;
    CharsAreScalars(f.chars);
    KerningsAreScalars(f.kernings);
    ArrayThen(KerningsScalars(f.kernings), brk, 1, 0);
    ArrayThen(CharsScalars(f.chars), kerns, |kerns|, 1);
    ArrayThen(Strs(f.pages), chars, |chars|, 2);
  }

  lemma FixedScalars(f: FontInfo)
    ensures |Fixed(f)| == 28 && AllScalars(Fixed(f))
  {
  }

  /**
   The stream is exactly one data item, an indefinite-length array of 31 items: the 28 fixed
   scalars and the page, char and kerning arrays.
   */
  lemma StreamIsOneItem(f: FontInfo)
    ensures Item(Stream(f)) == Some(|Stream(f)|)
    ensures CountUntilBreak(Stream(f)[1..]) == Some(31)
  {
    var ts := Stream(f);
    TailItems(f);
    FixedScalars(f);
    ScalarsThen(Fixed(f), Tail(f), |Tail(f)|, 3);
    assert ts[1..] == Fixed(f) + Tail(f);
  }

  // ---------------------------------------------------------------------------------------
  // Reader

  /** The 28 fixed scalars hold the kinds the writer gives them. */
  predicate FixedShape(ts: seq<Token>)
  {
    |ts| == 28 && ts[..3] == HEADER
    && ts[3].Int? && ts[4].Bool? && ts[5].Bool? && ts[6].Bool? && ts[7].Bool?
    && ts[8].Int? && ts[9].Int? && ts[10].Int? && ts[11].Int? && ts[12].Int? && ts[13].Int?
    && ts[14].Int? && ts[15].Int? && ts[16].Int? && ts[17].Int?
    && ts[18].Int? && ts[19].Int? && ts[20].Int? && ts[21].Int? && ts[22].Int? && ts[23].Bool?
    && ts[24].Int? && ts[25].Int? && ts[26].Int? && ts[27].Int?
  }

  function InfoFrom(ts: seq<Token>): Info
    requires FixedShape(ts)
  {
    Info("", "", ts[3].n, ts[7].b, ts[6].b, ts[8].n, ts[5].b, ts[9].n, ts[4].b, ts[10].n,
         ts[11].n, ts[12].n, ts[13].n, ts[14].n, ts[15].n, ts[16].n, ts[17].n)
  }

  function CommonFrom(ts: seq<Token>): Common
    requires FixedShape(ts)
  {
    Common(ts[18].n, ts[19].n, ts[20].n, ts[21].n, ts[23].b, ts[24].n, ts[25].n, ts[26].n,
           ts[27].n, 0, 0)
  }

  /** A definite array at the start of `ts`, split into its items and what follows it. */
  function ArrayAt(ts: seq<Token>): Option<(seq<Token>, seq<Token>)>
  {
    if ts != [] && ts[0].Array? && 1 + ts[0].count <= |ts| then
      Some((ts[1..1 + ts[0].count], ts[1 + ts[0].count..]))
    else None
  }

  predicate AllStrs(ts: seq<Token>)
  {
    forall i :: 0 <= i < |ts| ==> ts[i].Str?
  }

  function Names(ts: seq<Token>): (names: seq<string>)
    requires AllStrs(ts)
    ensures |names| == |ts| && forall i :: 0 <= i < |ts| ==> names[i] == ts[i].s
  {
    seq(|ts|, i requires 0 <= i < |ts| => ts[i].s)
  }

  predicate AllInts(ts: seq<Token>)
  {
    forall i :: 0 <= i < |ts| ==> ts[i].Int?
  }

  function CharFrom(ts: seq<Token>): Char
    requires |ts| == 10 && AllInts(ts)
  {
    Char(ts[0].n, ts[1].n, ts[2].n, ts[3].n, ts[4].n, ts[5].n, ts[6].n, ts[7].n, ts[8].n, ts[9].n)
  }

  /** Groups of ten numbers back into chars. */
  function CharsFrom(ts: seq<Token>): Option<seq<Char>>
  {
    if ts == [] then Some([])
    else if |ts| < 10 || !AllInts(ts[..10]) then None
    else
      match CharsFrom(ts[10..])
      case None => None
      case Some(rest) => Some([CharFrom(ts[..10])] + rest)
  }

  function KerningsFrom(ts: seq<Token>): Option<seq<Kerning>>
  {
    if ts == [] then Some([])
    else if |ts| < 3 || !ts[0].Int? || !ts[1].Int? || !ts[2].Int? then None
    else
      match KerningsFrom(ts[3..])
      case None => None
      case Some(rest) => Some([Kerning(ts[0].n, ts[1].n, ts[2].n)] + rest)
  }

  /**
   Reads a stream: the array start, the fixed scalars, a page array that agrees with the
   (16-bit) page count, the char and kerning arrays, and the break as the last token.
   */
  function Decode(ts: seq<Token>): Option<FontInfo>
  {
    if |ts| < 29 || ts[0] != IndefArray || !FixedShape(ts[1..29]) then None
    else
      var fixed := ts[1..29];
      match ArrayAt(ts[29..])
      case None => None
      case Some((pageTokens, afterPages)) =>
        if !AllStrs(pageTokens) || fixed[22].n != ToU16(|pageTokens|) then None
        else
          match ArrayAt(afterPages)
          case None => None
          case Some((charTokens, afterChars)) =>
            match ArrayAt(afterChars)
            case None => None
            case Some((kerningTokens, last)) =>
              if last != [Break] then None
              else
                match (CharsFrom(charTokens), KerningsFrom(kerningTokens))
                case (Some(cs), Some(ks)) =>
                  Some(FontInfo(InfoFrom(fixed), CommonFrom(fixed), Names(pageTokens), cs, ks, false))
                case _ => None
  }

  // ---------------------------------------------------------------------------------------
  // Round trip

  /**
   What the CBOR format keeps of a descriptor: no face, no style, no extra fields, and charset
   0 for a Unicode descriptor.
   */
  function CborView(f: FontInfo): FontInfo
  {
    f.(info := f.info.(face := "", style := "", charset := WrittenCharset(f.info)),
       common := f.common.(totalHeight := 0, descent := 0))
  }

  lemma {:induction false} CharsRoundTrip(cs: seq<Char>)
    ensures CharsFrom(CharsScalars(cs)) == Some(cs)
  {
    if cs != [] {
      var ts := CharsScalars(cs);
      assert ts[..10] == CharScalars(cs[0]);
      assert ts[10..] == CharsScalars(cs[1..]);
      CharsRoundTrip(cs[1..]);
      assert cs == [cs[0]] + cs[1..];
    }
  }

  lemma {:induction false} KerningsRoundTrip(ks: seq<Kerning>)
    ensures KerningsFrom(KerningsScalars(ks)) == Some(ks)
  {
    if ks != [] {
      var ts := KerningsScalars(ks);
      assert ts[..3] == KerningScalars(ks[0]);
      assert ts[3..] == KerningsScalars(ks[1..]);
      KerningsRoundTrip(ks[1..]);
      assert ks == [ks[0]] + ks[1..];
    }
  }

  lemma ArrayAtOf(items: seq<Token>, rest: seq<Token>)
    ensures ArrayAt(ArrayOf(items) + rest) == Some((items, rest))
  {
    var ts := ArrayOf(items) + rest;
    assert ts[1..1 + |items|] == items;
    assert ts[1 + |items|..] == rest;
  }

  lemma FixedRead(f: FontInfo)
    ensures FixedShape(Fixed(f))
    ensures InfoFrom(Fixed(f)) == CborView(f).info
    ensures CommonFrom(Fixed(f)) == CborView(f).common
    ensures Fixed(f)[22] == Int(ToU16(|f.pages|))
  {
    assert Fixed(f)[..3] == HEADER;
  }

  /** The decoder takes apart a stream laid out as the writer lays it out. */
  lemma DecodeLaidOut(fixed: seq<Token>, pages: seq<Token>, chars: seq<Token>, kernings: seq<Token>)
    requires FixedShape(fixed) && AllStrs(pages) && fixed[22].n == ToU16(|pages|)
    requires CharsFrom(chars).Some? && KerningsFrom(kernings).Some?
    ensures Decode([IndefArray] + (fixed + (ArrayOf(pages) + (ArrayOf(chars) + (ArrayOf(kernings) + [Break])))))
         == Some(FontInfo(InfoFrom(fixed), CommonFrom(fixed), Names(pages), CharsFrom(chars).value,
                          KerningsFrom(kernings).value, false))
  {
    var afterChars := ArrayOf(kernings) + [Break];
    var afterPages := ArrayOf(chars) + afterChars;
    var tail := ArrayOf(pages) + afterPages;
    var ts := [IndefArray] + (fixed + tail);
    assert ts[1..29] == fixed;
    assert ts[29..] == tail;
    ArrayAtOf(pages, afterPages);
    ArrayAtOf(chars, afterChars);
    ArrayAtOf(kernings, [Break]);
  }

  /**
   A descriptor without extra info is written, and reading the tokens back gives its CBOR
   view; with extra info nothing is written.
   */
  lemma CborRoundTrip(f: FontInfo)
    ensures Write(f).Ok? <==> !f.extraInfo
    ensures !f.extraInfo ==> Decode(Write(f).value) == Some(CborView(f))
  {
    if !f.extraInfo {
      FixedRead(f);
      CharsRoundTrip(f.chars);
      KerningsRoundTrip(f.kernings);
      DecodeLaidOut(Fixed(f), Strs(f.pages), CharsScalars(f.chars), KerningsScalars(f.kernings));
      assert Names(Strs(f.pages)) == f.pages;
    }
  }

  /** The page count in the common block is the number of pages only below 65536 pages. */
  lemma PageCountWraps(f: FontInfo)
    ensures Fixed(f)[22] == Int(|f.pages|) <==> |f.pages| < 0x1_0000
  {
    FixedRead(f);
  }
}
