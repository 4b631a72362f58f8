/**
 Reading a text descriptor back into a `FontInfo`: the parsed lines are checked against the
 layout `writeToTextFile` produces and their values are collected into the descriptor's
 fields. Together with the line parser of `TextCodec` this is the inverse of the writer, up
 to what the text format does not carry (`WrittenView`).
 */
module TextReader {
  import opened Wrappers
  import opened MachineInts
  import opened Decimal
  import opened Strings
  import opened FontInfo
  import opened TextKeys
  import opened TextCodec

  // ---------------------------------------------------------------------------------------
  // Attribute lists

  function Keys(attrs: seq<PAttr>): (ks: seq<string>)
    ensures |ks| == |attrs| && forall i :: 0 <= i < |attrs| ==> ks[i] == attrs[i].key
  {
    seq(|attrs|, i requires 0 <= i < |attrs| => attrs[i].key)
  }

  predicate AllNumbers(attrs: seq<PAttr>)
  {
    forall i :: 0 <= i < |attrs| ==> attrs[i].value.PNum?
  }

  function NumbersOf(attrs: seq<PAttr>): (ns: seq<int>)
    requires AllNumbers(attrs)
    ensures |ns| == |attrs| && forall i :: 0 <= i < |attrs| ==> ns[i] == attrs[i].value.n
  {
    seq(|attrs|, i requires 0 <= i < |attrs| => attrs[i].value.n)
  }

  /** A line of this tag that holds one number under each of these keys, in this order. */
  predicate IsNumberLine(l: PLine, tag: string, keys: seq<string>)
  {
    l.tag == tag && Keys(l.attrs) == keys && AllNumbers(l.attrs)
  }

  /** Number attributes read back as their keys and their numbers; the widths are gone. */
  lemma NumericRead(keys: seq<string>, nums: seq<int>, widths: seq<nat>)
    requires |keys| == |nums| == |widths|
    ensures Keys(CanonAttrs(Numeric(keys, nums, widths))) == keys
    ensures AllNumbers(CanonAttrs(Numeric(keys, nums, widths)))
    ensures NumbersOf(CanonAttrs(Numeric(keys, nums, widths))) == nums
  {
    var ps := CanonAttrs(Numeric(keys, nums, widths));
    assert forall i :: 0 <= i < |keys| ==> ps[i] == PAttr(keys[i], PNum(nums[i]));
  }

  // ---------------------------------------------------------------------------------------
  // Line decoders

  function InfoKeys(extra: bool): seq<string>
  {
    if extra then INFO_KEYS + ["style"] else INFO_KEYS
  }

  /** The info attributes have the keys and value kinds the writer gives them. */
  predicate InfoShape(a: seq<PAttr>)
  {
    (|a| == 12 || |a| == 13) && Keys(a) == InfoKeys(|a| == 13)
    && a[0].value.PStr? && a[1].value.PNum? && a[2].value.PNum? && a[3].value.PNum?
    && a[4].value.PStr? && a[5].value.PNum? && a[6].value.PNum? && a[7].value.PNum?
    && a[8].value.PNum? && a[9].value.PList? && |a[9].value.ns| == 4
    && a[10].value.PList? && |a[10].value.ns| == 2 && a[11].value.PNum?
    && (|a| == 13 ==> a[12].value.PStr?)
  }

  /** A written flag is 0 or 1; any non-zero number reads as `true`. */
  function FlagOf(p: Parsed): bool
    requires p.PNum?
  {
    p.n != 0
  }

  function InfoFrom(a: seq<PAttr>, charset: int): Info
    requires InfoShape(a)
  {
    var padding, spacing := a[9].value.ns, a[10].value.ns;
    Info(a[0].value.s, if |a| == 13 then a[12].value.s else "", a[1].value.n,
         FlagOf(a[2].value), FlagOf(a[3].value), charset, FlagOf(a[5].value), a[6].value.n,
         FlagOf(a[7].value), a[8].value.n, padding[0], padding[1], padding[2], padding[3],
         spacing[0], spacing[1], a[11].value.n)
  }

  /** The info line, and whether it carried the extra `style` attribute. */
  function DecodeInfo(l: PLine): Option<(Info, bool)>
  {
    if l.tag != "info" || !InfoShape(l.attrs) then None
    else
      match CharsetOfName(l.attrs[4].value.s)
      case None => None
      case Some(charset) => Some((InfoFrom(l.attrs, charset), |l.attrs| == 13))
  }

  function CommonFrom(ns: seq<int>, extra: bool): Common
    requires |ns| == |CommonKeys(extra)|
  {
    Common(ns[0], ns[1], ns[2], ns[3], ns[5] != 0, ns[6], ns[7], ns[8], ns[9],
           if extra then ns[10] else 0, if extra then ns[11] else 0)
  }

  /** The common line, the page count it announces, and whether it carried the extra fields. */
  function DecodeCommon(l: PLine): Option<(Common, nat, bool)>
  {
    var extra := |l.attrs| == 12;
    if IsNumberLine(l, "common", CommonKeys(extra)) && NumbersOf(l.attrs)[4] >= 0 then
      var ns := NumbersOf(l.attrs);
      Some((CommonFrom(ns, extra), ns[4], extra))
    else None
  }

  /** The line of page `id`: its index and its quoted file name. */
  predicate IsPageLine(l: PLine, id: nat)
  {
    l.tag == "page" && |l.attrs| == 2 && l.attrs[0] == PAttr("id", PNum(id))
    && l.attrs[1].key == "file" && l.attrs[1].value.PStr?
  }

  predicate PageLinesOk(ls: seq<PLine>)
  {
    forall i :: 0 <= i < |ls| ==> IsPageLine(ls[i], i)
  }

  function PageNames(ls: seq<PLine>): (names: seq<string>)
    requires PageLinesOk(ls)
    ensures |names| == |ls| && forall i :: 0 <= i < |ls| ==> names[i] == ls[i].attrs[1].value.s
  {
    seq(|ls|, i requires 0 <= i < |ls| => ls[i].attrs[1].value.s)
  }

  /** A `chars` or `kernings` line: the number of records that follow. */
  function CountOf(l: PLine, tag: string): (r: Option<nat>)
    ensures r.Some? ==> l.tag == tag && l.attrs == [PAttr("count", PNum(r.value))]
  {
    if l.tag == tag && |l.attrs| == 1 && l.attrs[0].key == "count" && l.attrs[0].value.PNum?
       && l.attrs[0].value.n >= 0
    then Some(l.attrs[0].value.n)
    else None
  }

  function CharFrom(ns: seq<int>): Char
    requires |ns| == 10
  {
    Char(ns[0], ns[1], ns[2], ns[3], ns[4], ns[5], ns[6], ns[7], ns[8], ns[9])
  }

  predicate CharLinesOk(ls: seq<PLine>)
  {
    forall i :: 0 <= i < |ls| ==> IsNumberLine(ls[i], "char", CHAR_KEYS)
  }

  function CharsOf(ls: seq<PLine>): (cs: seq<Char>)
    requires CharLinesOk(ls)
    ensures |cs| == |ls| && forall i :: 0 <= i < |ls| ==> cs[i] == CharFrom(NumbersOf(ls[i].attrs))
  {
    seq(|ls|, i requires 0 <= i < |ls| => CharFrom(NumbersOf(ls[i].attrs)))
  }

  function KerningFrom(ns: seq<int>): Kerning
    requires |ns| == 3
  {
    Kerning(ns[0], ns[1], ns[2])
  }

  predicate KerningLinesOk(ls: seq<PLine>)
  {
    forall i :: 0 <= i < |ls| ==> IsNumberLine(ls[i], "kerning", KERNING_KEYS)
  }

  function KerningsOf(ls: seq<PLine>): (ks: seq<Kerning>)
    requires KerningLinesOk(ls)
    ensures |ks| == |ls| && forall i :: 0 <= i < |ls| ==> ks[i] == KerningFrom(NumbersOf(ls[i].attrs))
  {
    seq(|ls|, i requires 0 <= i < |ls| => KerningFrom(NumbersOf(ls[i].attrs)))
  }

  /** The kerning section: nothing at all, or a positive count and exactly that many lines. */
  function DecodeKernings(ls: seq<PLine>): Option<seq<Kerning>>
  {
    if ls == [] then Some([])
    else
      match CountOf(ls[0], "kernings")
      case None => None
      case Some(m) =>
        if m > 0 && |ls| == 1 + m && KerningLinesOk(ls[1..]) then Some(KerningsOf(ls[1..]))
        else None
  }

  /**
   A whole descriptor: info, common, as many page lines as the common line announces, a
   chars count with that many char lines, and the kerning section.
   */
  function Decode(ls: seq<PLine>): Option<FontInfo>
  {
    if |ls| < 2 then None
    else
      match DecodeInfo(ls[0])
      case None => None
      case Some((info, extra)) =>
        match DecodeCommon(ls[1])
        case None => None
        case Some((common, p, extra')) =>
          if extra' != extra || |ls| < 3 + p || !PageLinesOk(ls[2..2 + p]) then None
          else
            match CountOf(ls[2 + p], "chars")
            case None => None
            case Some(n) =>
              var body := ls[3 + p..];
              if |body| < n || !CharLinesOk(body[..n]) then None
              else
                match DecodeKernings(body[n..])
                case None => None
                case Some(ks) =>
                  Some(FontInfo(info, common, PageNames(ls[2..2 + p]), CharsOf(body[..n]), ks, extra))
  }

  /** Reads a file: its lines as `std::getline` splits them, parsed and decoded. */
  function Read(text: string): Option<FontInfo>
  {
    match ParseLines(GetlinePieces(text, '\n'))
    case None => None
    case Some(ls) => Decode(ls)
  }

  // ---------------------------------------------------------------------------------------
  // Round trip

  function CanonLines(ls: seq<Line>): (ps: seq<PLine>)
    ensures |ps| == |ls| && forall i :: 0 <= i < |ls| ==> ps[i] == CanonLine(ls[i])
  {
    seq(|ls|, i requires 0 <= i < |ls| => CanonLine(ls[i]))
  }

  lemma InfoAttrsCanon(f: FontInfo)
    requires IsU8(f.info.charset)
    ensures |CanonLine(InfoLine(f)).attrs| == if f.extraInfo then 13 else 12
    ensures Keys(CanonLine(InfoLine(f)).attrs) == InfoKeys(f.extraInfo)
    ensures forall k :: 0 <= k < 12 ==> CanonLine(InfoLine(f)).attrs[k].value == Canon(InfoValues(f.info)[k])
    ensures f.extraInfo ==> CanonLine(InfoLine(f)).attrs[12].value == PStr(f.info.style)
  {
    var attrs := InfoLine(f).attrs;
    var standard := Attrs(INFO_KEYS, InfoValues(f.info));
    assert forall k :: 0 <= k < 12 ==> attrs[k] == standard[k];
    assert Keys(CanonLine(InfoLine(f)).attrs) == InfoKeys(f.extraInfo);
  }

  /** The info line reads back as the text view of the info, with the extra-info flag. */
  lemma InfoRead(f: FontInfo)
    requires IsU8(f.info.charset)
    ensures DecodeInfo(CanonLine(InfoLine(f))) == Some((WrittenView(f).info, f.extraInfo))
  {
    var a := CanonLine(InfoLine(f)).attrs;
    InfoShapeOf(f);
    WrittenCharsetNameRead(f.info);
    assert CharsetOfName(a[4].value.s) == Some(WrittenCharset(f.info));
    InfoFromOf(f);
  }

  lemma InfoShapeOf(f: FontInfo)
    requires IsU8(f.info.charset)
    ensures InfoShape(CanonLine(InfoLine(f)).attrs)
    ensures CanonLine(InfoLine(f)).attrs[4].value == PStr(WrittenCharsetName(f.info))
    ensures |CanonLine(InfoLine(f)).attrs| == 13 <==> f.extraInfo
  {
    InfoAttrsCanon(f);
    var a := CanonLine(InfoLine(f)).attrs;
    var vs := InfoValues(f.info);
    assert a[0].value == Canon(vs[0]) && a[4].value == Canon(vs[4]);
    assert a[9].value == Canon(vs[9]) && a[10].value == Canon(vs[10]);
  }

  lemma InfoFromOf(f: FontInfo)
    requires IsU8(f.info.charset)
    requires InfoShape(CanonLine(InfoLine(f)).attrs)
    ensures InfoFrom(CanonLine(InfoLine(f)).attrs, WrittenCharset(f.info)) == WrittenView(f).info
  {
    InfoAttrsCanon(f);
    var a := CanonLine(InfoLine(f)).attrs;
    var vs := InfoValues(f.info);
    var i := f.info;
    assert a[0].value.s == i.face && a[1].value.n == i.size;
    assert FlagOf(a[2].value) == i.bold && FlagOf(a[3].value) == i.italic;
    assert FlagOf(a[5].value) == i.unicode && a[6].value.n == i.stretchH;
    assert FlagOf(a[7].value) == i.smooth && a[8].value.n == i.aa;
    assert a[9].value.ns == [i.paddingUp, i.paddingRight, i.paddingDown, i.paddingLeft];
    assert a[10].value.ns == [i.spacingHor, i.spacingVer] && a[11].value.n == i.outline;
  }

  /** The common line reads back as the text view of the common block and the page count. */
  lemma CommonRead(f: FontInfo)
    ensures DecodeCommon(CanonLine(CommonLine(f))) == Some((WrittenView(f).common, |f.pages|, f.extraInfo))
  {
    var keys := CommonKeys(f.extraInfo);
    var l := CanonLine(CommonLine(f));
    var ns := AllCommonNumbers(f);
    NumericRead(keys, ns, Unaligned(|keys|));
    assert IsNumberLine(l, "common", keys) && NumbersOf(l.attrs) == ns;
    assert |l.attrs| == 12 <==> f.extraInfo;
    assert CommonFrom(ns, f.extraInfo) == WrittenView(f).common;
  }

  lemma CharRead(c: Char)
    ensures IsNumberLine(CanonLine(CharLine(c)), "char", CHAR_KEYS)
    ensures CharFrom(NumbersOf(CanonLine(CharLine(c)).attrs)) == c
  {
    NumericRead(CHAR_KEYS, CharNumbers(c), CHAR_WIDTHS);
  }

  lemma KerningRead(k: Kerning)
    ensures IsNumberLine(CanonLine(KerningLine(k)), "kerning", KERNING_KEYS)
    ensures KerningFrom(NumbersOf(CanonLine(KerningLine(k)).attrs)) == k
  {
    NumericRead(KERNING_KEYS, KerningNumbers(k), Unaligned(3));
  }

  /** The parsed lines `ls` are laid out as the writer lays out these sections. */
  predicate LaidOut(ls: seq<PLine>, info: PLine, common: PLine, pages: seq<string>, cs: seq<Char>, ks: seq<Kerning>)
  {
    var p, n := |pages|, |cs|;
    |ls| == 3 + p + n + |KerningSection(ks)|
    && ls[0] == info && ls[1] == common
    && (forall i :: 0 <= i < p ==> ls[2 + i] == CanonLine(PageLine(i, pages[i])))
    && ls[2 + p] == CanonLine(CountLine("chars", n))
    && (forall i :: 0 <= i < n ==> ls[3 + p + i] == CanonLine(CharLine(cs[i])))
    && (forall i :: 0 <= i < |KerningSection(ks)| ==> ls[3 + p + n + i] == CanonLine(KerningSection(ks)[i]))
  }

  /** The parsed lines of a written descriptor, section by section. */
  lemma CanonLayout(f: FontInfo)
    requires IsU8(f.info.charset)
    ensures LaidOut(CanonLines(Lines(f)), CanonLine(InfoLine(f)), CanonLine(CommonLine(f)), f.pages, f.chars, f.kernings)
  {
    CanonAssembled(InfoLine(f), CommonLine(f), f.pages, f.chars, f.kernings);
  }

  lemma CanonAssembled(info: Line, common: Line, pages: seq<string>, cs: seq<Char>, ks: seq<Kerning>)
    ensures LaidOut(CanonLines(Assemble(info, common, pages, cs, ks)), CanonLine(info), CanonLine(common), pages, cs, ks)
  {
    CanonFrame(info, common, pages, cs, ks);
    CanonPages(info, common, pages, cs, ks);
    CanonChars(info, common, pages, cs, ks);
    CanonSection(info, common, pages, cs, ks);
  }

  lemma CanonFrame(info: Line, common: Line, pages: seq<string>, cs: seq<Char>, ks: seq<Kerning>)
    ensures |CanonLines(Assemble(info, common, pages, cs, ks))| == 3 + |pages| + |cs| + |KerningSection(ks)|
    ensures CanonLines(Assemble(info, common, pages, cs, ks))[0] == CanonLine(info)
    ensures CanonLines(Assemble(info, common, pages, cs, ks))[1] == CanonLine(common)
    ensures CanonLines(Assemble(info, common, pages, cs, ks))[2 + |pages|] == CanonLine(CountLine("chars", |cs|))
  {
    FrameAt(info, common, pages, cs, ks);
  }

  lemma CanonPages(info: Line, common: Line, pages: seq<string>, cs: seq<Char>, ks: seq<Kerning>)
    ensures forall i :: 0 <= i < |pages| ==>
      CanonLines(Assemble(info, common, pages, cs, ks))[2 + i] == CanonLine(PageLine(i, pages[i]))
  {
    forall i | 0 <= i < |pages|
      ensures CanonLines(Assemble(info, common, pages, cs, ks))[2 + i] == CanonLine(PageLine(i, pages[i]))
    {
      PageAt(info, common, pages, cs, ks, i);
      FrameAt(info, common, pages, cs, ks);
    }
  }

  lemma CanonChars(info: Line, common: Line, pages: seq<string>, cs: seq<Char>, ks: seq<Kerning>)
    ensures forall i :: 0 <= i < |cs| ==>
      CanonLines(Assemble(info, common, pages, cs, ks))[3 + |pages| + i] == CanonLine(CharLine(cs[i]))
  {
    forall i | 0 <= i < |cs|
      ensures CanonLines(Assemble(info, common, pages, cs, ks))[3 + |pages| + i] == CanonLine(CharLine(cs[i]))
    {
      CharAt(info, common, pages, cs, ks, i);
      FrameAt(info, common, pages, cs, ks);
    }
  }

  lemma CanonSection(info: Line, common: Line, pages: seq<string>, cs: seq<Char>, ks: seq<Kerning>)
    ensures forall i :: 0 <= i < |KerningSection(ks)| ==>
      CanonLines(Assemble(info, common, pages, cs, ks))[3 + |pages| + |cs| + i] == CanonLine(KerningSection(ks)[i])
  {
    forall i | 0 <= i < |KerningSection(ks)|
      ensures CanonLines(Assemble(info, common, pages, cs, ks))[3 + |pages| + |cs| + i] == CanonLine(KerningSection(ks)[i])
    {
      SectionAt(info, common, pages, cs, ks, i);
    }
  }

  /** A count line reads back as its count. */
  lemma CountRead(tag: string, n: nat)
    ensures CountOf(CanonLine(CountLine(tag, n)), tag) == Some(n)
  {
    var ps := CanonLine(CountLine(tag, n)).attrs;
    assert ps[0] == PAttr("count", PNum(n));
  }

  /** Page lines in order read back as the page names. */
  lemma PagesRead(ls: seq<PLine>, info: PLine, common: PLine, pages: seq<string>, cs: seq<Char>, ks: seq<Kerning>)
    requires LaidOut(ls, info, common, pages, cs, ks)
    ensures PageLinesOk(ls[2..2 + |pages|]) && PageNames(ls[2..2 + |pages|]) == pages
  {
    var section := ls[2..2 + |pages|];
    forall i | 0 <= i < |pages|
      ensures section[i] == PLine("page", [PAttr("id", PNum(i)), PAttr("file", PStr(pages[i]))])
    {
      assert section[i] == ls[2 + i];
      PageRead(i, pages[i]);
    }
  }

  lemma PageRead(id: nat, file: string)
    ensures CanonLine(PageLine(id, file)) == PLine("page", [PAttr("id", PNum(id)), PAttr("file", PStr(file))])
  {
    var ps := CanonLine(PageLine(id, file)).attrs;
    assert ps[0] == PAttr("id", PNum(id)) && ps[1] == PAttr("file", PStr(file));
  }

  /** Char lines in order read back as the chars. */
  lemma CharsRead(ls: seq<PLine>, info: PLine, common: PLine, pages: seq<string>, cs: seq<Char>, ks: seq<Kerning>)
    requires LaidOut(ls, info, common, pages, cs, ks)
    ensures CountOf(ls[2 + |pages|], "chars") == Some(|cs|)
    ensures CharLinesOk(ls[3 + |pages|..][..|cs|]) && CharsOf(ls[3 + |pages|..][..|cs|]) == cs
  {
    var start := 3 + |pages|;
    CountRead("chars", |cs|);
    var section := ls[start..][..|cs|];
    forall i | 0 <= i < |cs|
      ensures IsNumberLine(section[i], "char", CHAR_KEYS) && CharFrom(NumbersOf(section[i].attrs)) == cs[i]
    {
      assert section[i] == ls[start + i];
      CharRead(cs[i]);
    }
  }

  /** The kerning section reads back as the kerning pairs. */
  lemma KerningSectionRead(ls: seq<PLine>, info: PLine, common: PLine, pages: seq<string>, cs: seq<Char>, ks: seq<Kerning>)
    requires LaidOut(ls, info, common, pages, cs, ks)
    ensures DecodeKernings(ls[3 + |pages|..][|cs|..]) == Some(ks)
  {
    var start := 3 + |pages| + |cs|;
    assert ls[3 + |pages|..][|cs|..] == ls[start..];
    var section := ls[start..];
    if ks != [] {
      var body := section[1..];
      assert KerningSection(ks)[0] == CountLine("kernings", |ks|);
      assert section[0] == ls[start] == CanonLine(CountLine("kernings", |ks|));
      forall i | 0 <= i < |body|
        ensures IsNumberLine(body[i], "kerning", KERNING_KEYS) && KerningFrom(NumbersOf(body[i].attrs)) == ks[i]
      {
        assert body[i] == ls[start + (1 + i)];
        assert KerningSection(ks)[1 + i] == KerningLine(ks[i]);
        KerningRead(ks[i]);
      }
      assert KerningsOf(body) == ks;
    }
  }

  /**
   Lines laid out as the writer lays out its sections decode to those sections, given info
   and common lines that decode with the right page count and the same extra-info flag.
   */
  lemma DecodeLaidOut(ls: seq<PLine>, info: PLine, common: PLine, pages: seq<string>, cs: seq<Char>,
                      ks: seq<Kerning>, i: Info, c: Common, extra: bool)
    requires LaidOut(ls, info, common, pages, cs, ks)
    requires DecodeInfo(info) == Some((i, extra))
    requires DecodeCommon(common) == Some((c, |pages|, extra))
    ensures Decode(ls) == Some(FontInfo(i, c, pages, cs, ks, extra))
  {
    PagesRead(ls, info, common, pages, cs, ks);
    CharsRead(ls, info, common, pages, cs, ks);
    KerningSectionRead(ls, info, common, pages, cs, ks);
    DecodeWhen(ls, i, c, pages, cs, ks, extra);
  }

  /** The decoder's steps, one section after the other. */
  lemma DecodeWhen(ls: seq<PLine>, info: Info, common: Common, pages: seq<string>, cs: seq<Char>,
                   ks: seq<Kerning>, extra: bool)
    requires |ls| >= 3 + |pages| + |cs|
    requires DecodeInfo(ls[0]) == Some((info, extra))
    requires DecodeCommon(ls[1]) == Some((common, |pages|, extra))
    requires PageLinesOk(ls[2..2 + |pages|]) && PageNames(ls[2..2 + |pages|]) == pages
    requires CountOf(ls[2 + |pages|], "chars") == Some(|cs|)
    requires CharLinesOk(ls[3 + |pages|..][..|cs|]) && CharsOf(ls[3 + |pages|..][..|cs|]) == cs
    requires DecodeKernings(ls[3 + |pages|..][|cs|..]) == Some(ks)
    ensures Decode(ls) == Some(FontInfo(info, common, pages, cs, ks, extra))
  {
  }

  /** The parsed lines of a written descriptor decode to its text view. */
  lemma DecodeLines(f: FontInfo)
    requires IsU8(f.info.charset)
    ensures Decode(CanonLines(Lines(f))) == Some(WrittenView(f))
  {
    var v := WrittenView(f);
    CanonLayout(f);
    InfoRead(f);
    CommonRead(f);
    DecodeLaidOut(CanonLines(Lines(f)), CanonLine(InfoLine(f)), CanonLine(CommonLine(f)),
                  f.pages, f.chars, f.kernings, v.info, v.common, f.extraInfo);
  }

  // ---------------------------------------------------------------------------------------
  // The file

  /** Ending every line with a line break is joining the lines and an empty last piece. */
  lemma {:induction false} TerminatedIsJoin(ts: seq<string>)
    ensures Terminated(ts) == Join(ts + [""], '\n')
  {
    if ts != [] {
      TerminatedIsJoin(ts[1..]);
      assert (ts + [""])[1..] == ts[1..] + [""];
    }
  }

  /** `std::getline` gives back the lines of a file whose every line is terminated. */
  lemma GetlineTerminated(ts: seq<string>)
    requires forall i :: 0 <= i < |ts| ==> '\n' !in ts[i]
    ensures GetlinePieces(Terminated(ts), '\n') == ts
  {
    var parts := ts + [""];
    assert forall i :: 0 <= i < |parts| ==> '\n' !in parts[i];
    TerminatedIsJoin(ts);
    SplitJoin(parts, '\n');
    assert parts[..|parts| - 1] == ts;
  }

  lemma IntTextNoNewline(n: int)
    ensures '\n' !in IntToString(n)
  {
    IntStringChars(n);
  }

  lemma ValueNoNewline(v: Value)
    requires Readable(v)
    ensures '\n' !in ValueText(v)
  {
    match v
    case Number(n, width) =>
      IntTextNoNewline(n);
      var t := PadRight(IntToString(n), width);
      forall i | 0 <= i < |t| ensures t[i] != '\n' {
        if i < |IntToString(n)| {
          assert t[i] == t[..|IntToString(n)|][i];
        }
      }
    case Numbers(_) => NumbersText(v);
    case Quoted(s) =>
      assert forall i :: 0 <= i < |s| ==> ValueText(v)[i + 1] == s[i];
  }

  lemma {:induction false} AttrsNoNewline(attrs: seq<Attr>)
    requires ReadableAttrs(attrs)
    ensures '\n' !in AttrsText(attrs)
  {
    if attrs != [] {
      var a := attrs[0];
      ValueNoNewline(a.value);
      AttrsNoNewline(attrs[1..]);
      assert AttrText(a) == " " + a.key + "=" + ValueText(a.value);
    }
  }

  /** A readable line holds no line break, so it stays one line of the file. */
  lemma LineNoNewline(l: Line)
    requires ReadableLine(l)
    ensures '\n' !in LineText(l)
  {
    AttrsNoNewline(l.attrs);
  }

  /** Readable lines, written one per line, parse back to their canonical forms. */
  lemma {:induction false} ParseTexts(ls: seq<Line>)
    requires forall i :: 0 <= i < |ls| ==> ReadableLine(ls[i])
    ensures ParseLines(Texts(ls)) == Some(CanonLines(ls))
  {
    if ls != [] {
      LineRoundTrip(ls[0]);
      ParseTexts(ls[1..]);
      TextsCons(ls);
      ParseLinesCons(Texts(ls), CanonLine(ls[0]), CanonLines(ls[1..]));
    }
  }

  lemma TextsCons(ls: seq<Line>)
    requires ls != []
    ensures Texts(ls)[0] == LineText(ls[0]) && Texts(ls)[1..] == Texts(ls[1..])
    ensures CanonLines(ls) == [CanonLine(ls[0])] + CanonLines(ls[1..])
  {
    TextsTail(ls);
    CanonLinesCons(ls);
  }

  lemma TextsTail(ls: seq<Line>)
    requires ls != []
    ensures Texts(ls)[1..] == Texts(ls[1..])
  {
    var a, b := Texts(ls)[1..], Texts(ls[1..]);
    forall i | 0 <= i < |a| ensures a[i] == b[i] {
      assert a[i] == Texts(ls)[i + 1];
    }
  }

  lemma CanonLinesCons(ls: seq<Line>)
    requires ls != []
    ensures CanonLines(ls) == [CanonLine(ls[0])] + CanonLines(ls[1..])
  {
    var a, b := CanonLines(ls), [CanonLine(ls[0])] + CanonLines(ls[1..]);
    forall i | 0 <= i < |a| ensures a[i] == b[i] {
      if i > 0 {
        assert b[i] == CanonLines(ls[1..])[i - 1];
      }
    }
  }

  lemma ParseLinesCons(ts: seq<string>, l: PLine, rest: seq<PLine>)
    requires ts != [] && ParseLine(ts[0]) == Some(l) && ParseLines(ts[1..]) == Some(rest)
    ensures ParseLines(ts) == Some([l] + rest)
  {
  }

  // ---------------------------------------------------------------------------------------
  // Which descriptors the reader can recover

  /**
   The reader recovers a descriptor whose quoted strings (face, style, page names) hold no
   double quote and no line break: the writer does not escape them.
   */
  predicate TextReadable(f: FontInfo)
  {
    IsU8(f.info.charset) && Quotable(f.info.face) && (f.extraInfo ==> Quotable(f.info.style))
    && forall i :: 0 <= i < |f.pages| ==> Quotable(f.pages[i])
  }

  lemma CharSetNameQuotable(c: int)
    requires IsU8(c)
    ensures Quotable(CharSetName(c))
  {
    CharSetNameChars(c);
  }

  lemma NumericReadable(keys: seq<string>, nums: seq<int>, widths: seq<nat>)
    requires |keys| == |nums| == |widths| && AllWords(keys)
    ensures ReadableAttrs(Numeric(keys, nums, widths))
  {
  }

  lemma InfoLineReadable(f: FontInfo)
    requires TextReadable(f)
    ensures ReadableLine(InfoLine(f))
  {
    InfoKeysAreWords();
    ExtraKeysAreWords();
    OtherWords();
    if !f.info.unicode {
      CharSetNameQuotable(f.info.charset);
    }
    var attrs := InfoLine(f).attrs;
    var standard := Attrs(INFO_KEYS, InfoValues(f.info));
    assert forall k :: 0 <= k < 12 ==> attrs[k] == standard[k];
  }

  lemma CommonLineReadable(f: FontInfo)
    ensures ReadableLine(CommonLine(f))
  {
    CommonKeysAreWords();
    ExtraKeysAreWords();
    OtherWords();
    var keys := CommonKeys(f.extraInfo);
    if f.extraInfo {
      assert forall i :: 0 <= i < |keys| ==> keys[i] == if i < 10 then COMMON_KEYS[i] else EXTRA_COMMON_KEYS[i - 10];
    }
    NumericReadable(keys, AllCommonNumbers(f), Unaligned(|keys|));
  }

  /** Every line the writer produces for a readable descriptor can be parsed back. */
  lemma LinesReadable(f: FontInfo)
    requires TextReadable(f)
    ensures forall i :: 0 <= i < |Lines(f)| ==> ReadableLine(Lines(f)[i])
  {
    InfoLineReadable(f);
    CommonLineReadable(f);
    AssembledReadable(InfoLine(f), CommonLine(f), f.pages, f.chars, f.kernings);
  }

  lemma AssembledReadable(info: Line, common: Line, pages: seq<string>, cs: seq<Char>, ks: seq<Kerning>)
    requires ReadableLine(info) && ReadableLine(common)
    requires forall i :: 0 <= i < |pages| ==> Quotable(pages[i])
    ensures forall i :: 0 <= i < |Assemble(info, common, pages, cs, ks)| ==> ReadableLine(Assemble(info, common, pages, cs, ks)[i])
  {
    var ls := Assemble(info, common, pages, cs, ks);
    var p, n := |pages|, |cs|;
    CharKeysAreWords();
    OtherWords();
    forall i | 0 <= i < |ls| ensures ReadableLine(ls[i]) {
      LineAt(info, common, pages, cs, ks, i);
      if 3 + p <= i < 3 + p + n {
        NumericReadable(CHAR_KEYS, CharNumbers(cs[i - 3 - p]), CHAR_WIDTHS);
      } else if 3 + p + n < i {
        NumericReadable(KERNING_KEYS, KerningNumbers(ks[i - 4 - p - n]), Unaligned(3));
      }
    }
  }

  /**
   Reading the written file gives back the descriptor, up to what the text format does not
   carry: the charset of a Unicode descriptor, and the extra-info fields when they are off.
   */
  lemma TextRoundTrip(f: FontInfo)
    requires TextReadable(f)
    ensures Read(Write(f)) == Some(WrittenView(f))
  {
    var ls := Lines(f);
    LinesReadable(f);
    forall i | 0 <= i < |ls| ensures '\n' !in Texts(ls)[i] {
      LineNoNewline(ls[i]);
    }
    GetlineTerminated(Texts(ls));
    ParseTexts(ls);
    DecodeLines(f);
  }
}
