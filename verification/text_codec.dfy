/**
 The AngelCode text descriptor (`FontInfo::writeToTextFile`) as a producer of lines, and a
 reader that parses those lines back.

 Every line is a tag followed by ` key=value` attributes. Numbers are printed in decimal, with
 `bool`s as 0 and 1. Strings are written between double quotes without escaping. The char
 lines left-align their numbers in fixed widths (`std::left << std::setw`), which puts spaces
 after a value.
 */
module TextCodec {
  import opened Wrappers
  import opened MachineInts
  import opened Decimal
  import opened Strings
  import opened FontInfo
  import opened TextKeys
  import opened Seqs

  // ---------------------------------------------------------------------------------------
  // Writer

  /** A value after `key=`, as `operator<<` formats it. */
  datatype Value =
    | Number(n: int, width: nat)   // `std::setw(width)` under `std::left`; width 0 is no setw
    | Numbers(ns: seq<int>)        // comma-separated, as padding and spacing are written
    | Quoted(s: string)

  datatype Attr = Attr(key: string, value: Value)

  datatype Line = Line(tag: string, attrs: seq<Attr>)

  function Plain(n: int): Value { Number(n, 0) }

  function Flag(b: bool): Value { Number(Bit(b), 0) }

  function ValueText(v: Value): string
  {
    match v
    case Number(n, width) => PadRight(IntToString(n), width)
    case Numbers(ns) => Join(IntStrings(ns), ',')
    case Quoted(s) => "\"" + s + "\""
  }

  function AttrText(a: Attr): string
  {
    " " + KeyValueText(a)
  }

  function KeyValueText(a: Attr): string
  {
    a.key + ("=" + ValueText(a.value))
  }

  function AttrsText(attrs: seq<Attr>): string
  {
    if attrs == [] then "" else AttrText(attrs[0]) + AttrsText(attrs[1..])
  }

  function LineText(l: Line): string
  {
    l.tag + AttrsText(l.attrs)
  }

  /** Pairs each key with its value. */
  function Attrs(keys: seq<string>, values: seq<Value>): (attrs: seq<Attr>)
    requires |keys| == |values|
    ensures |attrs| == |keys| && forall i :: 0 <= i < |keys| ==> attrs[i] == Attr(keys[i], values[i])
  {
    seq(|keys|, i requires 0 <= i < |keys| => Attr(keys[i], values[i]))
  }

  function InfoValues(i: Info): seq<Value>
    requires IsU8(i.charset)
  {
    [Quoted(i.face), Plain(i.size), Flag(i.bold), Flag(i.italic), Quoted(WrittenCharsetName(i)),
     Flag(i.unicode), Plain(i.stretchH), Flag(i.smooth), Plain(i.aa),
     Numbers([i.paddingUp, i.paddingRight, i.paddingDown, i.paddingLeft]),
     Numbers([i.spacingHor, i.spacingVer]), Plain(i.outline)]
  }

  /** The `info` line; `style` is appended with extra info. */
  function InfoLine(f: FontInfo): Line
    requires IsU8(f.info.charset)
  {
    Line("info", Attrs(INFO_KEYS, InfoValues(f.info))
                 + (if f.extraInfo then [Attr("style", Quoted(f.info.style))] else []))
  }

  /** Number attributes: each key with its value, left-aligned in its width. */
  function Numeric(keys: seq<string>, nums: seq<int>, widths: seq<nat>): (attrs: seq<Attr>)
    requires |keys| == |nums| == |widths|
    ensures |attrs| == |keys|
    ensures forall i :: 0 <= i < |keys| ==> attrs[i] == Attr(keys[i], Number(nums[i], widths[i]))
  {
    seq(|keys|, i requires 0 <= i < |keys| => Attr(keys[i], Number(nums[i], widths[i])))
  }

  /** No `setw`: every width is 0. */
  function Unaligned(n: nat): (ws: seq<nat>)
    ensures |ws| == n && forall i :: 0 <= i < n ==> ws[i] == 0
  {
    seq(n, i => 0)
  }

  function CommonNumbers(f: FontInfo): seq<int>
  {
    var c := f.common;
    [c.lineHeight, c.base, c.scaleW, c.scaleH, |f.pages|, Bit(c.packed), c.alphaChnl, c.redChnl,
     c.greenChnl, c.blueChnl]
  }

  function CommonKeys(extraInfo: bool): seq<string>
  {
    if extraInfo then COMMON_KEYS + EXTRA_COMMON_KEYS else COMMON_KEYS
  }

  /** The common numbers, followed by `totalHeight` and `descent` with extra info. */
  function AllCommonNumbers(f: FontInfo): (ns: seq<int>)
    ensures |ns| == |CommonKeys(f.extraInfo)|
  {
    if f.extraInfo then CommonNumbers(f) + [f.common.totalHeight, f.common.descent] else CommonNumbers(f)
  }

  /** The `common` line; `totalHeight` and `descent` are appended with extra info. */
  function CommonLine(f: FontInfo): Line
  {
    var keys := CommonKeys(f.extraInfo);
    Line("common", Numeric(keys, AllCommonNumbers(f), Unaligned(|keys|)))
  }

  function PageLine(id: nat, file: string): Line
  {
    Line("page", [Attr("id", Plain(id)), Attr("file", Quoted(file))])
  }

  function CountLine(tag: string, count: nat): Line
  {
    Line(tag, [Attr("count", Plain(count))])
  }

  /** The id takes 4 columns, the page and channel 2, the other numbers 5. */
  const CHAR_WIDTHS: seq<nat> := [4, 5, 5, 5, 5, 5, 5, 5, 2, 2]

  function CharLine(c: Char): Line
  {
    Line("char", Numeric(CHAR_KEYS, CharNumbers(c), CHAR_WIDTHS))
  }

  function KerningLine(k: Kerning): Line
  {
    Line("kerning", Numeric(KERNING_KEYS, KerningNumbers(k), Unaligned(3)))
  }

  function PageLines(pages: seq<string>): (ls: seq<Line>)
    ensures |ls| == |pages| && forall i :: 0 <= i < |pages| ==> ls[i] == PageLine(i, pages[i])
  {
    seq(|pages|, i requires 0 <= i < |pages| => PageLine(i, pages[i]))
  }

  function CharLines(cs: seq<Char>): (ls: seq<Line>)
    ensures |ls| == |cs| && forall i :: 0 <= i < |cs| ==> ls[i] == CharLine(cs[i])
  {
    seq(|cs|, i requires 0 <= i < |cs| => CharLine(cs[i]))
  }

  function KerningLines(ks: seq<Kerning>): (ls: seq<Line>)
    ensures |ls| == |ks| && forall i :: 0 <= i < |ks| ==> ls[i] == KerningLine(ks[i])
  {
    seq(|ks|, i requires 0 <= i < |ks| => KerningLine(ks[i]))
  }

  /** The kerning section is written only when there are kerning pairs. */
  function KerningSection(ks: seq<Kerning>): seq<Line>
  {
    if ks == [] then [] else [CountLine("kernings", |ks|)] + KerningLines(ks)
  }

  /** The lines of the descriptor, in the order they are written. */
  function Lines(f: FontInfo): seq<Line>
    requires IsU8(f.info.charset)
  {
    Assemble(InfoLine(f), CommonLine(f), f.pages, f.chars, f.kernings)
  }

  function Assemble(info: Line, common: Line, pages: seq<string>, cs: seq<Char>, ks: seq<Kerning>): seq<Line>
  {
    [info, common] + PageLines(pages) + ([CountLine("chars", |cs|)] + CharLines(cs)) + KerningSection(ks)
  }

  function Texts(ls: seq<Line>): (ts: seq<string>)
    ensures |ts| == |ls| && forall i :: 0 <= i < |ls| ==> ts[i] == LineText(ls[i])
  {
    seq(|ls|, i requires 0 <= i < |ls| => LineText(ls[i]))
  }

  /** Every line is ended by `std::endl`. */
  function Terminated(ts: seq<string>): string
  {
    if ts == [] then "" else ts[0] + "\n" + Terminated(ts[1..])
  }

  /** The file's contents. */
  function Write(f: FontInfo): string
    requires IsU8(f.info.charset)
  {
    Terminated(Texts(Lines(f)))
  }

  /**
   The layout of the file: the info and common lines, one `page` line per page in order, a
   `chars count=N` line followed by exactly N `char` lines, and a kerning section that is
   left out entirely when there are no kerning pairs.
   */
  predicate LaidOutLines(ls: seq<Line>, info: Line, common: Line, pages: seq<string>, cs: seq<Char>, ks: seq<Kerning>)
  {
    && |ls| == 3 + |pages| + |cs| + (if ks == [] then 0 else 1 + |ks|)
    && ls[0] == info && ls[1] == common
    && (forall i :: 0 <= i < |pages| ==> ls[2 + i] == PageLine(i, pages[i]))
    && ls[2 + |pages|] == CountLine("chars", |cs|)
    && (forall i :: 0 <= i < |cs| ==> ls[3 + |pages| + i] == CharLine(cs[i]))
    && (ks != [] ==> ls[3 + |pages| + |cs|] == CountLine("kernings", |ks|))
    && (forall i :: 0 <= i < |ks| ==> ls[4 + |pages| + |cs| + i] == KerningLine(ks[i]))
  }

  /** The written lines follow that layout, with the descriptor's info and common lines. */
  lemma LinesLayout(f: FontInfo)
    requires IsU8(f.info.charset)
    ensures LaidOutLines(Lines(f), InfoLine(f), CommonLine(f), f.pages, f.chars, f.kernings)
  {
    AssembleLayout(InfoLine(f), CommonLine(f), f.pages, f.chars, f.kernings);
  }

  lemma AssembleLayout(info: Line, common: Line, pages: seq<string>, cs: seq<Char>, ks: seq<Kerning>)
    ensures LaidOutLines(Assemble(info, common, pages, cs, ks), info, common, pages, cs, ks)
  {
    PagesAt(info, common, pages, cs, ks);
    CharsAt(info, common, pages, cs, ks);
    KerningsAt(info, common, pages, cs, ks);
  }

  /** Line `i` of the layout, case by case. */
  lemma LineAt(info: Line, common: Line, pages: seq<string>, cs: seq<Char>, ks: seq<Kerning>, i: nat)
    requires i < |Assemble(info, common, pages, cs, ks)|
    ensures |Assemble(info, common, pages, cs, ks)| == 3 + |pages| + |cs| + (if ks == [] then 0 else 1 + |ks|)
    ensures i == 0 ==> Assemble(info, common, pages, cs, ks)[i] == info
    ensures i == 1 ==> Assemble(info, common, pages, cs, ks)[i] == common
    ensures 2 <= i < 2 + |pages| ==> Assemble(info, common, pages, cs, ks)[i] == PageLine(i - 2, pages[i - 2])
    ensures i == 2 + |pages| ==> Assemble(info, common, pages, cs, ks)[i] == CountLine("chars", |cs|)
    ensures 3 + |pages| <= i < 3 + |pages| + |cs| ==> Assemble(info, common, pages, cs, ks)[i] == CharLine(cs[i - 3 - |pages|])
    ensures i == 3 + |pages| + |cs| ==> Assemble(info, common, pages, cs, ks)[i] == CountLine("kernings", |ks|)
    ensures 3 + |pages| + |cs| < i ==> Assemble(info, common, pages, cs, ks)[i] == KerningLine(ks[i - 4 - |pages| - |cs|])
  {
    var p, n := |pages|, |cs|;
    PagesAt(info, common, pages, cs, ks);
    CharsAt(info, common, pages, cs, ks);
    KerningsAt(info, common, pages, cs, ks);
    if 2 <= i < 2 + p {
      assert i == 2 + (i - 2);
    } else if 3 + p <= i < 3 + p + n {
      assert i == 3 + p + (i - 3 - p);
    } else if 3 + p + n < i {
      assert i == 4 + p + n + (i - 4 - p - n);
    }
  }

  /** The lines around the sections, and how many lines there are. */
  lemma FrameAt(info: Line, common: Line, pages: seq<string>, cs: seq<Char>, ks: seq<Kerning>)
    ensures |Assemble(info, common, pages, cs, ks)| == 3 + |pages| + |cs| + |KerningSection(ks)|
    ensures Assemble(info, common, pages, cs, ks)[0] == info && Assemble(info, common, pages, cs, ks)[1] == common
    ensures Assemble(info, common, pages, cs, ks)[2 + |pages|] == CountLine("chars", |cs|)
  {
    PagesAt(info, common, pages, cs, ks);
    CharsAt(info, common, pages, cs, ks);
    KerningsAt(info, common, pages, cs, ks);
  }

  lemma PageAt(info: Line, common: Line, pages: seq<string>, cs: seq<Char>, ks: seq<Kerning>, i: nat)
    requires i < |pages|
    ensures Assemble(info, common, pages, cs, ks)[2 + i] == PageLine(i, pages[i])
  {
    PagesAt(info, common, pages, cs, ks);
  }

  lemma CharAt(info: Line, common: Line, pages: seq<string>, cs: seq<Char>, ks: seq<Kerning>, i: nat)
    requires i < |cs|
    ensures Assemble(info, common, pages, cs, ks)[3 + |pages| + i] == CharLine(cs[i])
  {
    CharsAt(info, common, pages, cs, ks);
  }

  /** Line `i` of the kerning section. */
  lemma SectionAt(info: Line, common: Line, pages: seq<string>, cs: seq<Char>, ks: seq<Kerning>, i: nat)
    requires i < |KerningSection(ks)|
    ensures 3 + |pages| + |cs| + i < |Assemble(info, common, pages, cs, ks)|
    ensures Assemble(info, common, pages, cs, ks)[3 + |pages| + |cs| + i] == KerningSection(ks)[i]
  {
    var ls := Assemble(info, common, pages, cs, ks);
    var head := [info, common] + PageLines(pages) + ([CountLine("chars", |cs|)] + CharLines(cs));
    assert |head| == 3 + |pages| + |cs|;
    assert ls == head + KerningSection(ks);
    assert ls[|head| + i] == KerningSection(ks)[i];
  }

  lemma PagesAt(info: Line, common: Line, pages: seq<string>, cs: seq<Char>, ks: seq<Kerning>)
    ensures Assemble(info, common, pages, cs, ks)[0] == info && Assemble(info, common, pages, cs, ks)[1] == common
    ensures forall i :: 0 <= i < |pages| ==> Assemble(info, common, pages, cs, ks)[2 + i] == PageLine(i, pages[i])
  {
    var front := [info, common];
    var chars := [CountLine("chars", |cs|)] + CharLines(cs);
    var rest := chars + KerningSection(ks);
    AppendAssoc(front + PageLines(pages), chars, KerningSection(ks));
    MiddleAt([], front, PageLines(pages) + rest, 0);
    MiddleAt([], front, PageLines(pages) + rest, 1);
    forall i | 0 <= i < |pages|
      ensures Assemble(info, common, pages, cs, ks)[2 + i] == PageLine(i, pages[i])
    {
      MiddleAt(front, PageLines(pages), rest, 2 + i);
    }
  }

  lemma CharsAt(info: Line, common: Line, pages: seq<string>, cs: seq<Char>, ks: seq<Kerning>)
    ensures Assemble(info, common, pages, cs, ks)[2 + |pages|] == CountLine("chars", |cs|)
    ensures forall i :: 0 <= i < |cs| ==> Assemble(info, common, pages, cs, ks)[3 + |pages| + i] == CharLine(cs[i])
  {
    var head := [info, common] + PageLines(pages);
    var chars := [CountLine("chars", |cs|)] + CharLines(cs);
    assert |head| == 2 + |pages|;
    MiddleAt(head, chars, KerningSection(ks), 2 + |pages|);
    forall i | 0 <= i < |cs|
      ensures Assemble(info, common, pages, cs, ks)[3 + |pages| + i] == CharLine(cs[i])
    {
      MiddleAt(head, chars, KerningSection(ks), 3 + |pages| + i);
      assert chars[1 + i] == CharLines(cs)[i];
    }
  }

  lemma KerningsAt(info: Line, common: Line, pages: seq<string>, cs: seq<Char>, ks: seq<Kerning>)
    ensures |Assemble(info, common, pages, cs, ks)| == 3 + |pages| + |cs| + (if ks == [] then 0 else 1 + |ks|)
    ensures ks != [] ==> Assemble(info, common, pages, cs, ks)[3 + |pages| + |cs|] == CountLine("kernings", |ks|)
    ensures forall i :: 0 <= i < |ks| ==> Assemble(info, common, pages, cs, ks)[4 + |pages| + |cs| + i] == KerningLine(ks[i])
  {
    var head := [info, common] + PageLines(pages) + ([CountLine("chars", |cs|)] + CharLines(cs));
    var kerns := KerningSection(ks);
    assert |head| == 3 + |pages| + |cs|;
    if ks != [] {
      MiddleAt(head, kerns, [], |head|);
    }
    forall i | 0 <= i < |ks|
      ensures Assemble(info, common, pages, cs, ks)[4 + |pages| + |cs| + i] == KerningLine(ks[i])
    {
      MiddleAt(head, kerns, [], |head| + 1 + i);
      assert kerns[1 + i] == KerningLines(ks)[i];
    }
  }

  /**
   Extra info adds `style` at the end of the info line and `totalHeight` and `descent` at the
   end of the common line; without it those lines hold exactly the standard attributes.
   */
  lemma ExtraInfoAttributes(f: FontInfo)
    requires IsU8(f.info.charset)
    ensures InfoLine(f).attrs[..12] == Attrs(INFO_KEYS, InfoValues(f.info))
    ensures CommonLine(f).attrs[..10] == Numeric(COMMON_KEYS, CommonNumbers(f), Unaligned(10))
    ensures f.extraInfo ==> InfoLine(f).attrs[12..] == [Attr("style", Quoted(f.info.style))]
    ensures f.extraInfo ==> (CommonLine(f).attrs[10..]
              == [Attr("totalHeight", Plain(f.common.totalHeight)), Attr("descent", Plain(f.common.descent))])
    ensures !f.extraInfo ==> |InfoLine(f).attrs| == 12 && |CommonLine(f).attrs| == 10
  {
    var common := CommonLine(f).attrs;
    assert common[..10] == Numeric(COMMON_KEYS, CommonNumbers(f), Unaligned(10));
    if f.extraInfo {
      assert common[10] == Attr("totalHeight", Plain(f.common.totalHeight));
      assert common[11] == Attr("descent", Plain(f.common.descent));
    }
  }

  /** A Unicode descriptor writes `charset=""`; otherwise the charset's name is quoted. */
  lemma UnicodeCharsetEmpty(f: FontInfo)
    requires IsU8(f.info.charset)
    ensures InfoLine(f).attrs[4] == Attr("charset", Quoted(WrittenCharsetName(f.info)))
  {
  }

  // ---------------------------------------------------------------------------------------
  // Reader: lines into attributes

  /** An attribute value as read: a quoted string, a comma list, or a number. */
  datatype Parsed = PNum(n: int) | PList(ns: seq<int>) | PStr(s: string)

  datatype PAttr = PAttr(key: string, value: Parsed)

  datatype PLine = PLine(tag: string, attrs: seq<PAttr>)

  /** The number of leading characters that are not `stop`. */
  function Until(s: string, stop: char): (n: nat)
    ensures n <= |s| && stop !in s[..n] && (n < |s| ==> s[n] == stop)
  {
    if s == [] || s[0] == stop then 0
    else
      var n := Until(s[1..], stop);
      assert s[..n + 1] == [s[0]] + s[1..][..n];
      n + 1
  }

  /** The number of leading spaces. */
  function Blanks(s: string): (n: nat)
    ensures n <= |s| && (n < |s| ==> s[n] != ' ')
  {
    if s != [] && s[0] == ' ' then Blanks(s[1..]) + 1 else 0
  }

  function ParseInts(ss: seq<string>): Option<seq<int>>
  {
    if ss == [] then Some([])
    else
      match ParseInt(ss[0])
      case None => None
      case Some(n) =>
        match ParseInts(ss[1..])
        case None => None
        case Some(ns) => Some([n] + ns)
  }

  /** An unquoted value: a comma list when it holds a comma, a signed decimal otherwise. */
  function ParseValue(token: string): Option<Parsed>
  {
    if ',' in token then
      match ParseInts(Split(token, ','))
      case None => None
      case Some(ns) => Some(PList(ns))
    else
      match ParseInt(token)
      case None => None
      case Some(n) => Some(PNum(n))
  }

  /**
   One attribute at the start of `t`: `key=`, then a quoted string or a token that runs to the
   next space. The text after the attribute is returned with it.
   */
  function ParseAttr(t: string): (r: Option<(PAttr, string)>)
    ensures r.Some? ==> |r.value.1| < |t|
  {
    var k := Until(t, '=');
    if k == 0 || k == |t| then None
    else
      var key := t[..k];
      var rest := t[k + 1..];
      if rest != [] && rest[0] == '"' then
        var body := rest[1..];
        var n := Until(body, '"');
        if n == |body| then None
        else Some((PAttr(key, PStr(body[..n])), body[n + 1..]))
      else
        var n := Until(rest, ' ');
        match ParseValue(rest[..n])
        case None => None
        case Some(v) => Some((PAttr(key, v), rest[n..]))
  }

  /** The attributes of a line, each preceded by spaces. */
  function ParseAttrs(s: string): Option<seq<PAttr>>
    decreases |s|
  {
    var t := s[Blanks(s)..];
    if t == [] then Some([])
    else
      match ParseAttr(t)
      case None => None
      case Some((a, rest)) =>
        match ParseAttrs(rest)
        case None => None
        case Some(tail) => Some([a] + tail)
  }

  /** A line: the tag up to the first space, then the attributes. */
  function ParseLine(s: string): Option<PLine>
  {
    var n := Until(s, ' ');
    if n == 0 then None
    else
      match ParseAttrs(s[n..])
      case None => None
      case Some(attrs) => Some(PLine(s[..n], attrs))
  }

  function ParseLines(ts: seq<string>): Option<seq<PLine>>
  {
    if ts == [] then Some([])
    else
      match ParseLine(ts[0])
      case None => None
      case Some(l) =>
        match ParseLines(ts[1..])
        case None => None
        case Some(ls) => Some([l] + ls)
  }

  /** What the reader makes of a written value: the alignment spaces and the quotes are gone. */
  function Canon(v: Value): Parsed
  {
    match v
    case Number(n, _) => PNum(n)
    case Numbers(ns) => PList(ns)
    case Quoted(s) => PStr(s)
  }

  function CanonAttrs(attrs: seq<Attr>): (ps: seq<PAttr>)
    ensures |ps| == |attrs|
    ensures forall i :: 0 <= i < |attrs| ==> ps[i] == PAttr(attrs[i].key, Canon(attrs[i].value))
  {
    seq(|attrs|, i requires 0 <= i < |attrs| => PAttr(attrs[i].key, Canon(attrs[i].value)))
  }

  function CanonLine(l: Line): PLine
  {
    PLine(l.tag, CanonAttrs(l.attrs))
  }

  /** A string the writer can quote without ambiguity: no quote and no line break inside. */
  predicate Quotable(s: string)
  {
    forall i :: 0 <= i < |s| ==> s[i] != '"' && s[i] != '\n'
  }

  /** A list is written with at least one comma, so the reader takes it for a list. */
  predicate Readable(v: Value)
  {
    match v
    case Number(_, _) => true
    case Numbers(ns) => |ns| >= 2
    case Quoted(s) => Quotable(s)
  }

  predicate ReadableAttrs(attrs: seq<Attr>)
  {
    forall i :: 0 <= i < |attrs| ==> IsWord(attrs[i].key) && Readable(attrs[i].value)
  }

  predicate ReadableLine(l: Line)
  {
    IsWord(l.tag) && ReadableAttrs(l.attrs)
  }

  predicate AllBlank(s: string)
  {
    forall i :: 0 <= i < |s| ==> s[i] == ' '
  }

  lemma {:induction false} BlanksOf(sp: string, s: string)
    requires AllBlank(sp) && (s == [] || s[0] != ' ')
    ensures Blanks(sp + s) == |sp|
    decreases |sp|
  {
    if sp != [] {
      assert (sp + s)[1..] == sp[1..] + s;
      BlanksOf(sp[1..], s);
    } else {
      assert sp + s == s;
    }
  }

  lemma {:induction false} UntilOf(w: string, stop: char, s: string)
    requires stop !in w && (s == [] || s[0] == stop)
    ensures Until(w + s, stop) == |w|
    decreases |w|
  {
    if w != [] {
      assert (w + s)[1..] == w[1..] + s;
      assert w[0] in w;
      UntilOf(w[1..], stop, s);
    } else {
      assert w + s == s;
    }
  }

  lemma IntStringChars(n: int)
    ensures forall i :: 0 <= i < |IntToString(n)| ==> IntToString(n)[i] == '-' || IsDigit(IntToString(n)[i])
  {
    if n < 0 {
      var s := IntToString(n);
      assert s == "-" + NatToString(-n);
      forall i | 1 <= i < |s| ensures IsDigit(s[i]) {
        assert s[i] == NatToString(-n)[i - 1];
      }
    }
  }

  lemma IntStringsNoComma(ns: seq<int>)
    ensures forall i :: 0 <= i < |ns| ==> ',' !in IntStrings(ns)[i]
  {
    forall i | 0 <= i < |ns| ensures ',' !in IntStrings(ns)[i] {
      IntStringChars(ns[i]);
    }
  }

  lemma {:induction false} ParseIntsOf(ns: seq<int>)
    ensures ParseInts(IntStrings(ns)) == Some(ns)
  {
    if ns != [] {
      ParseIntToString(ns[0]);
      assert IntStrings(ns)[1..] == IntStrings(ns[1..]);
      ParseIntsOf(ns[1..]);
      assert ns == [ns[0]] + ns[1..];
    }
  }

  lemma {:induction false} JoinChars(ss: seq<string>, sep: char, c: char)
    requires c != sep && forall i :: 0 <= i < |ss| ==> c !in ss[i]
    ensures c !in Join(ss, sep)
  {
    if |ss| > 1 {
      JoinChars(ss[1..], sep, c);
      assert Join(ss, sep) == ss[0] + [sep] + Join(ss[1..], sep);
    }
  }

  lemma {:induction false} JoinHasSep(ss: seq<string>, sep: char)
    requires |ss| >= 2
    ensures sep in Join(ss, sep)
  {
    assert Join(ss, sep) == ss[0] + [sep] + Join(ss[1..], sep);
    assert Join(ss, sep)[|ss[0]|] == sep;
  }

  /** The characters of a printed value, apart from padding, are neither spaces nor quotes. */
  lemma NumbersText(v: Value)
    requires v.Numbers?
    ensures ' ' !in ValueText(v) && '"' !in ValueText(v) && '\n' !in ValueText(v)
  {
    var ss := IntStrings(v.ns);
    forall i | 0 <= i < |ss| ensures ' ' !in ss[i] && '"' !in ss[i] && '\n' !in ss[i] {
      IntStringChars(v.ns[i]);
    }
    JoinChars(ss, ',', ' ');
    JoinChars(ss, ',', '"');
    JoinChars(ss, ',', '\n');
  }

  /** An unquoted value reads back. */
  lemma ValueRoundTrip(v: Value)
    requires Readable(v) && !v.Quoted?
    ensures ParseValue(Trimmed(v)) == Some(Canon(v))
  {
    match v
    case Number(n, _) =>
      IntStringChars(n);
      ParseIntToString(n);
    case Numbers(ns) =>
      var ss := IntStrings(ns);
      IntStringsNoComma(ns);
      JoinHasSep(ss, ',');
      SplitJoin(ss, ',');
      ParseIntsOf(ns);
  }

  /** The unquoted value without its alignment spaces. */
  function Trimmed(v: Value): string
  {
    match v
    case Number(n, _) => IntToString(n)
    case Numbers(ns) => Join(IntStrings(ns), ',')
    case Quoted(s) => s
  }

  /** An unquoted value is its trimmed text followed by alignment spaces. */
  lemma PaddedValue(v: Value)
    requires !v.Quoted?
    ensures ValueText(v) == Trimmed(v) + ValueText(v)[|Trimmed(v)|..]
    ensures AllBlank(ValueText(v)[|Trimmed(v)|..])
    ensures ' ' !in Trimmed(v)
  {
    match v
    case Number(n, w) =>
      IntStringChars(n);
      var t := ValueText(v);
      assert t[..|IntToString(n)|] == IntToString(n);
    case Numbers(_) =>
      NumbersText(v);
  }

  lemma QuotableNoQuote(q: string)
    requires Quotable(q)
    ensures '"' !in q
  {
  }

  /** What follows a value before the next attribute: its alignment spaces. */
  function Leftover(v: Value): string
  {
    if v.Quoted? then "" else ValueText(v)[|Trimmed(v)|..]
  }

  /** A written quoted attribute is read, with nothing left over. */
  lemma QuotedAttrRead(a: Attr, rest: string)
    requires IsWord(a.key) && a.value.Quoted? && Quotable(a.value.s)
    ensures ParseAttr(KeyValueText(a) + rest) == Some((PAttr(a.key, Canon(a.value)), rest))
  {
    var q := a.value.s;
    var t := KeyValueText(a) + rest;
    assert t == a.key + ("=" + ("\"" + (q + ("\"" + rest))));
    UntilOf(a.key, '=', "=" + ("\"" + (q + ("\"" + rest))));
    assert t[..|a.key|] == a.key;
    var body := t[|a.key| + 1..][1..];
    assert body == q + ("\"" + rest);
    QuotableNoQuote(q);
    UntilOf(q, '"', "\"" + rest);
    assert body[..|q|] == q;
    assert body[|q| + 1..] == rest;
  }

  /** With an unquoted value, `ParseAttr` reads the key and the token up to the next space. */
  lemma ParseUnquoted(key: string, after: string)
    requires IsWord(key) && (after == [] || after[0] != '"')
    ensures var n := Until(after, ' ');
      ParseAttr(key + ("=" + after))
        == match ParseValue(after[..n]) case None => None case Some(v) => Some((PAttr(key, v), after[n..]))
  {
    var t := key + ("=" + after);
    assert '=' !in key by { WordHasNoEquals(key); }
    UntilOf(key, '=', "=" + after);
    assert t[..|key|] == key;
    assert t[|key| + 1..] == after;
  }

  lemma WordHasNoEquals(w: string)
    requires IsWord(w)
    ensures '=' !in w
  {
  }

  /** A written number or list is read up to the next space, leaving its alignment spaces. */
  lemma PlainAttrRead(a: Attr, rest: string)
    requires IsWord(a.key) && !a.value.Quoted? && Readable(a.value)
    requires rest == [] || rest[0] == ' '
    ensures ParseAttr(KeyValueText(a) + rest) == Some((PAttr(a.key, Canon(a.value)), Leftover(a.value) + rest))
  {
    var v := a.value;
    var after := ValueText(v) + rest;
    assert KeyValueText(a) + rest == a.key + ("=" + after);
    PlainRead(v, rest);
    ParseUnquoted(a.key, after);
    ValueRoundTrip(v);
  }

  /** An unquoted value is read up to the next space; what remains is its padding and the rest. */
  lemma PlainRead(v: Value, rest: string)
    requires !v.Quoted? && (rest == [] || rest[0] == ' ')
    ensures var after := ValueText(v) + rest;
      var n := |Trimmed(v)|;
      && (after == [] || after[0] != '"') && Until(after, ' ') == n && n <= |after|
      && after[..n] == Trimmed(v) && after[n..] == Leftover(v) + rest
  {
    PaddedValue(v);
    var trimmed := Trimmed(v);
    var pad := Leftover(v);
    AppendAssoc(trimmed, pad, rest);
    PlainStart(v);
    BlankThenRest(pad, rest);
    UntilOf(trimmed, ' ', pad + rest);
  }

  lemma BlankThenRest(pad: string, rest: string)
    requires AllBlank(pad) && (rest == [] || rest[0] == ' ')
    ensures pad + rest == [] || (pad + rest)[0] == ' '
  {
  }

  /** An unquoted value does not start with a quote. */
  lemma PlainStart(v: Value)
    requires !v.Quoted?
    ensures ValueText(v) == [] || ValueText(v)[0] != '"'
  {
    PaddedValue(v);
    var trimmed := Trimmed(v);
    if trimmed != [] {
      assert ValueText(v)[0] == trimmed[0];
      if v.Number? {
        IntStringChars(v.n);
      } else {
        NumbersText(v);
        assert trimmed[0] in ValueText(v);
      }
    }
  }

  lemma LeftoverBlank(v: Value)
    ensures AllBlank(Leftover(v))
  {
    if !v.Quoted? {
      PaddedValue(v);
    }
  }

  lemma AttrsTextStart(attrs: seq<Attr>)
    ensures AttrsText(attrs) == [] || AttrsText(attrs)[0] == ' '
  {
  }

  /** Past the spaces in front of an attribute, the reader sees its key. */
  lemma SkipToKey(sp: string, a: Attr, rest: string)
    requires AllBlank(sp) && IsWord(a.key)
    ensures var s := sp + (AttrText(a) + rest);
      s[Blanks(s)..] == KeyValueText(a) + rest && |KeyValueText(a) + rest| < |s|
  {
    var s := sp + (AttrText(a) + rest);
    var tail := KeyValueText(a) + rest;
    assert AttrText(a) + rest == " " + tail;
    assert s == (sp + " ") + tail;
    assert a.key[0] == tail[0];
    BlanksOf(sp + " ", tail);
  }

  /** After any run of spaces, written attributes read back as their canonical form. */
  lemma {:induction false} AttrsRoundTrip(sp: string, attrs: seq<Attr>)
    requires AllBlank(sp) && ReadableAttrs(attrs)
    ensures ParseAttrs(sp + AttrsText(attrs)) == Some(CanonAttrs(attrs))
    decreases |attrs|
  {
    var s := sp + AttrsText(attrs);
    if attrs == [] {
      assert s == sp;
      assert s[Blanks(s)..] == [];
    } else {
      var a := attrs[0];
      var rest := AttrsText(attrs[1..]);
      assert ReadableAttrs(attrs[1..]);
      CanonAttrsCons(attrs);
      assert s == sp + (AttrText(a) + rest);
      SkipToKey(sp, a, rest);
      var t := KeyValueText(a) + rest;
      assert s[Blanks(s)..] == t;
      var after := Leftover(a.value) + rest;
      AttrsTextStart(attrs[1..]);
      if a.value.Quoted? {
        QuotedAttrRead(a, rest);
        assert after == rest;
      } else {
        PlainAttrRead(a, rest);
      }
      assert ParseAttr(t) == Some((PAttr(a.key, Canon(a.value)), after));
      LeftoverBlank(a.value);
      AttrsRoundTrip(Leftover(a.value), attrs[1..]);
      ParseAttrsStep(s, PAttr(a.key, Canon(a.value)), after);
    }
  }

  lemma CanonAttrsCons(attrs: seq<Attr>)
    requires attrs != []
    ensures CanonAttrs(attrs) == [PAttr(attrs[0].key, Canon(attrs[0].value))] + CanonAttrs(attrs[1..])
  {
    var c := CanonAttrs(attrs);
    var d := [PAttr(attrs[0].key, Canon(attrs[0].value))] + CanonAttrs(attrs[1..]);
    assert |c| == |d|;
    forall i | 0 <= i < |c| ensures c[i] == d[i] {
      if i > 0 {
        assert d[i] == CanonAttrs(attrs[1..])[i - 1];
      }
    }
  }

  /** One step of `ParseAttrs`: the first attribute, then the attributes after it. */
  lemma ParseAttrsStep(s: string, a: PAttr, rest: string)
    requires s[Blanks(s)..] != [] && ParseAttr(s[Blanks(s)..]) == Some((a, rest))
    ensures ParseAttrs(s) == match ParseAttrs(rest) case None => None case Some(tail) => Some([a] + tail)
  {
  }

  /** A written line reads back as its canonical form. */
  lemma LineRoundTrip(l: Line)
    requires ReadableLine(l)
    ensures ParseLine(LineText(l)) == Some(CanonLine(l))
  {
    var s := LineText(l);
    var rest := AttrsText(l.attrs);
    AttrsTextStart(l.attrs);
    UntilOf(l.tag, ' ', rest);
    assert s[..|l.tag|] == l.tag;
    assert s[|l.tag|..] == "" + rest;
    AttrsRoundTrip("", l.attrs);
  }
}
