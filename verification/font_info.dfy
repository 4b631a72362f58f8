/**
 The font descriptor `FontInfo` that every output format serialises, and
 `FontInfo::getCharSetName`.

 Numeric fields are `int`; `Valid` states the ranges of the C++ field types
 (`FontInfo.h` is not part of this model; the types are the ones the writers cast to).
 Strings are `std::string`s, i.e. byte strings: every character is below 256.
 */
module FontInfo {
  import opened Wrappers
  import opened MachineInts
  import opened Decimal

  datatype Info = Info(
    face: string,
    style: string,
    size: int,
    bold: bool,
    italic: bool,
    charset: int,
    unicode: bool,
    stretchH: int,
    smooth: bool,
    aa: int,
    paddingUp: int,
    paddingRight: int,
    paddingDown: int,
    paddingLeft: int,
    spacingHor: int,
    spacingVer: int,
    outline: int)

  datatype Common = Common(
    lineHeight: int,
    base: int,
    scaleW: int,
    scaleH: int,
    packed: bool,
    alphaChnl: int,
    redChnl: int,
    greenChnl: int,
    blueChnl: int,
    totalHeight: int,
    descent: int)

  datatype Char = Char(
    id: int,
    x: int,
    y: int,
    width: int,
    height: int,
    xoffset: int,
    yoffset: int,
    xadvance: int,
    page: int,
    chnl: int)

  datatype Kerning = Kerning(first: int, second: int, amount: int)

  datatype FontInfo = FontInfo(
    info: Info,
    common: Common,
    pages: seq<string>,
    chars: seq<Char>,
    kernings: seq<Kerning>,
    extraInfo: bool)

  predicate IsByteString(s: string)
  {
    forall i :: 0 <= i < |s| ==> s[i] as int < 256
  }

  predicate ValidInfo(i: Info)
  {
    IsByteString(i.face) && IsByteString(i.style)
    && IsI16(i.size) && IsU8(i.charset) && IsU16(i.stretchH) && IsU8(i.aa)
    && IsU8(i.paddingUp) && IsU8(i.paddingRight) && IsU8(i.paddingDown) && IsU8(i.paddingLeft)
    && IsU8(i.spacingHor) && IsU8(i.spacingVer) && IsU8(i.outline)
  }

  predicate ValidCommon(c: Common)
  {
    IsU16(c.lineHeight) && IsU16(c.base) && IsU16(c.scaleW) && IsU16(c.scaleH)
    && IsU8(c.alphaChnl) && IsU8(c.redChnl) && IsU8(c.greenChnl) && IsU8(c.blueChnl)
    && IsU16(c.totalHeight) && IsI16(c.descent)
  }

  predicate ValidChar(c: Char)
  {
    IsU32(c.id) && IsU16(c.x) && IsU16(c.y) && IsU16(c.width) && IsU16(c.height)
    && IsI16(c.xoffset) && IsI16(c.yoffset) && IsI16(c.xadvance) && IsU8(c.page) && IsU8(c.chnl)
  }

  predicate ValidKerning(k: Kerning)
  {
    IsU32(k.first) && IsU32(k.second) && IsI16(k.amount)
  }

  /** Every field holds a value of its C++ type. */
  predicate Valid(f: FontInfo)
  {
    ValidInfo(f.info) && ValidCommon(f.common)
    && (forall i :: 0 <= i < |f.pages| ==> IsByteString(f.pages[i]))
    && (forall i :: 0 <= i < |f.chars| ==> ValidChar(f.chars[i]))
    && (forall i :: 0 <= i < |f.kernings| ==> ValidKerning(f.kernings[i]))
  }

  /** A `bool` as the writers print and store it. */
  function Bit(b: bool): int { if b then 1 else 0 }

  /**
   The charset as a reader recovers it: a Unicode descriptor writes an empty name (text, XML,
   JSON) or 0 (binary, CBOR), so its charset reads back as 0.
   */
  function WrittenCharset(i: Info): int
  {
    if i.unicode then 0 else i.charset
  }

  /**
   What the text, JSON and XML descriptors carry of a descriptor: a Unicode descriptor's
   charset is written as an empty name, and `style`, `totalHeight` and `descent` are written
   only with extra info.
   */
  function WrittenView(f: FontInfo): FontInfo
  {
    var style := if f.extraInfo then f.info.style else "";
    var common := if f.extraInfo then f.common else f.common.(totalHeight := 0, descent := 0);
    f.(info := f.info.(charset := WrittenCharset(f.info), style := style), common := common)
  }

  /** The Windows character sets that have a name (`ANSI_CHARSET` and so on). */
  function NamedCharSet(c: int): Option<string>
  {
    if c == 0 then Some("ANSI") else if c == 1 then Some("DEFAULT")
    else if c == 2 then Some("SYMBOL") else if c == 128 then Some("SHIFTJIS")
    else if c == 129 then Some("HANGUL") else if c == 134 then Some("GB2312")
    else if c == 136 then Some("CHINESEBIG5") else if c == 255 then Some("OEM")
    else if c == 130 then Some("JOHAB") else if c == 177 then Some("HEBREW")
    else if c == 178 then Some("ARABIC") else if c == 161 then Some("GREEK")
    else if c == 162 then Some("TURKISH") else if c == 163 then Some("VIETNAMESE")
    else if c == 222 then Some("THAI") else if c == 238 then Some("EASTEUROPE")
    else if c == 204 then Some("RUSSIAN") else if c == 77 then Some("MAC")
    else if c == 186 then Some("BALTIC") else None
  }

  /** The code of a charset name, the inverse lookup of `NamedCharSet`. */
  function NamedCharSetCode(s: string): Option<int>
  {
    if s == "ANSI" then Some(0) else if s == "DEFAULT" then Some(1)
    else if s == "SYMBOL" then Some(2) else if s == "SHIFTJIS" then Some(128)
    else if s == "HANGUL" then Some(129) else if s == "GB2312" then Some(134)
    else if s == "CHINESEBIG5" then Some(136) else if s == "OEM" then Some(255)
    else if s == "JOHAB" then Some(130) else if s == "HEBREW" then Some(177)
    else if s == "ARABIC" then Some(178) else if s == "GREEK" then Some(161)
    else if s == "TURKISH" then Some(162) else if s == "VIETNAMESE" then Some(163)
    else if s == "THAI" then Some(222) else if s == "EASTEUROPE" then Some(238)
    else if s == "RUSSIAN" then Some(204) else if s == "MAC" then Some(77)
    else if s == "BALTIC" then Some(186) else None
  }

  const NAMED_CHARSETS: set<int> := {0, 1, 2, 77, 128, 129, 130, 134, 136, 161, 162, 163, 177, 178, 186, 204, 222, 238, 255}

  /** `getCharSetName`: the name of a listed charset, or the code in decimal. */
  function CharSetName(charset: int): (name: string)
    requires IsU8(charset)
    ensures |name| > 0
    ensures !IsDigit(name[0]) <==> charset in NAMED_CHARSETS
  {
    match NamedCharSet(charset)
    case Some(name) => name
    case None => NatToString(charset)
  }

  /** Reads a charset name back: a listed name, or a decimal byte value that has no name. */
  function CharSetCode(name: string): (r: Option<int>)
    ensures r.Some? ==> IsU8(r.value)
  {
    match NamedCharSetCode(name)
    case Some(code) => Some(code)
    case None =>
      match ParseNat(name)
      case Some(n) => if IsU8(n) && NamedCharSet(n).None? then Some(n) else None
      case None => None
  }

  /** Charset names are written with capital letters and digits only. */
  predicate IsNameChar(c: char)
  {
    'A' <= c <= 'Z' || '0' <= c <= '9'
  }

  lemma CharSetNameChars(charset: int)
    requires IsU8(charset)
    ensures forall i :: 0 <= i < |CharSetName(charset)| ==> IsNameChar(CharSetName(charset)[i])
  {
    var name := CharSetName(charset);
    if NamedCharSet(charset).None? {
      assert forall i :: 0 <= i < |name| ==> IsDigit(name[i]);
    } else if charset < 161 {
      LowNameChars(charset);
    } else {
      HighNameChars(charset);
    }
  }

  lemma LowNameChars(charset: int)
    requires charset < 161 && NamedCharSet(charset).Some?
    ensures forall i :: 0 <= i < |NamedCharSet(charset).value| ==> IsNameChar(NamedCharSet(charset).value[i])
  {
  }

  lemma HighNameChars(charset: int)
    requires charset >= 161 && NamedCharSet(charset).Some?
    ensures forall i :: 0 <= i < |NamedCharSet(charset).value| ==> IsNameChar(NamedCharSet(charset).value[i])
  {
  }

  /** A decimal string is none of the names. */
  lemma DecimalNotNamed(s: string)
    requires |s| > 0 && IsDigit(s[0])
    ensures NamedCharSetCode(s).None?
  {
  }

  /** Every charset code survives `getCharSetName`: the name determines the code. */
  lemma CharSetNameRoundTrip(charset: int)
    requires IsU8(charset)
    ensures CharSetCode(CharSetName(charset)) == Some(charset)
  {
    if NamedCharSet(charset).None? {
      DecimalNotNamed(NatToString(charset));
      ParseNatToString(charset);
    }
  }

  /** The charset as the text, JSON and XML writers print it: empty for a Unicode descriptor. */
  function WrittenCharsetName(i: Info): string
    requires IsU8(i.charset)
  {
    if i.unicode then "" else CharSetName(i.charset)
  }

  /** Reads a printed charset back: the empty name as 0, else a name or a code. */
  function CharsetOfName(name: string): (r: Option<int>)
    ensures r.Some? ==> IsU8(r.value)
  {
    if name == "" then Some(0) else CharSetCode(name)
  }

  /** The printed charset reads back as the charset a reader recovers. */
  lemma WrittenCharsetNameRead(i: Info)
    requires IsU8(i.charset)
    ensures CharsetOfName(WrittenCharsetName(i)) == Some(WrittenCharset(i))
  {
    if !i.unicode {
      CharSetNameRoundTrip(i.charset);
    }
  }

  /** A character's numbers in the order every writer emits them. */
  function CharNumbers(c: Char): seq<int>
  {
    [c.id, c.x, c.y, c.width, c.height, c.xoffset, c.yoffset, c.xadvance, c.page, c.chnl]
  }

  /** A kerning pair's numbers in the order every writer emits them. */
  function KerningNumbers(k: Kerning): seq<int>
  {
    [k.first, k.second, k.amount]
  }
}
