/**
 The XML descriptor (`FontInfo::writeToXmlFile`) as the tinyxml2 element tree it builds, and a
 reader that takes such a tree apart again.

 An element keeps its attributes in the order they were first set; setting an attribute that
 is already there overwrites its value in place (tinyxml2's `SetAttribute`, which is not part
 of this model, finds an attribute by name or appends a new one). Attribute values are the
 text tinyxml2 prints: numbers in decimal, strings as they are. The declaration, the character
 escaping and the file itself are not part of this model.

 With extra info the writer sets `base` a second time, to the descent, instead of setting a
 `descent` attribute, so the tree holds the descent under `base` and has no `descent`.
 `WriteAsWritten` is the tree the program builds; `Write` sets `descent`, as the other
 formats do.
 */
module XmlCodec {
  import opened Wrappers
  import opened MachineInts
  import opened Decimal
  import opened Strings
  import opened FontInfo
  import opened TextKeys

  datatype Attribute = Attribute(name: string, value: string)

  datatype Element = Element(tag: string, attrs: seq<Attribute>, children: seq<Element>)

  function Names(attrs: seq<Attribute>): (ns: seq<string>)
    ensures |ns| == |attrs| && forall i :: 0 <= i < |attrs| ==> ns[i] == attrs[i].name
  {
    seq(|attrs|, i requires 0 <= i < |attrs| => attrs[i].name)
  }

  function Values(attrs: seq<Attribute>): (vs: seq<string>)
    ensures |vs| == |attrs| && forall i :: 0 <= i < |attrs| ==> vs[i] == attrs[i].value
  {
    seq(|attrs|, i requires 0 <= i < |attrs| => attrs[i].value)
  }

  /** Attributes with the given names and values, in that order. */
  function Zip(names: seq<string>, values: seq<string>): (attrs: seq<Attribute>)
    requires |names| == |values|
    ensures Names(attrs) == names && Values(attrs) == values
  {
    seq(|names|, i requires 0 <= i < |names| => Attribute(names[i], values[i]))
  }

  /** No name occurs twice. */
  predicate Distinct(names: seq<string>)
  {
    forall i, j :: 0 <= i < j < |names| ==> names[i] != names[j]
  }

  // ---------------------------------------------------------------------------------------
  // Setting attributes

  /** The value of the attribute called `name`, as `XMLElement::Attribute` finds it. */
  function Lookup(attrs: seq<Attribute>, name: string): (r: Option<string>)
    ensures r.None? <==> name !in Names(attrs)
  {
    if attrs == [] then None
    else if attrs[0].name == name then Some(attrs[0].value)
    else
      assert Names(attrs) == [attrs[0].name] + Names(attrs[1..]);
      Lookup(attrs[1..], name)
  }

  /** `XMLElement::SetAttribute`: overwrites the first attribute called `name`, or appends one. */
  function SetAttribute(attrs: seq<Attribute>, name: string, value: string): (r: seq<Attribute>)
    ensures |r| == |attrs| || |r| == |attrs| + 1
  {
    if attrs == [] then [Attribute(name, value)]
    else if attrs[0].name == name then [Attribute(name, value)] + attrs[1..]
    else [attrs[0]] + SetAttribute(attrs[1..], name, value)
  }

  /** After setting, the attribute has the new value and every other attribute its old one. */
  lemma {:induction false} SetAttributeLookup(attrs: seq<Attribute>, name: string, value: string, other: string)
    ensures Lookup(SetAttribute(attrs, name, value), name) == Some(value)
    ensures other != name ==> Lookup(SetAttribute(attrs, name, value), other) == Lookup(attrs, other)
  {
    if attrs != [] && attrs[0].name != name {
      SetAttributeLookup(attrs[1..], name, value, other);
      var r := SetAttribute(attrs, name, value);
      assert r[1..] == SetAttribute(attrs[1..], name, value);
    }
  }

  /** A name that is not there yet is appended. */
  lemma {:induction false} SetAttributeFresh(attrs: seq<Attribute>, name: string, value: string)
    requires name !in Names(attrs)
    ensures SetAttribute(attrs, name, value) == attrs + [Attribute(name, value)]
  {
    if attrs != [] {
      assert Names(attrs)[0] == attrs[0].name;
      assert name !in Names(attrs[1..]) by {
        forall i | 0 <= i < |attrs| - 1 ensures Names(attrs[1..])[i] != name {
          assert Names(attrs[1..])[i] == Names(attrs)[i + 1];
        }
      }
      SetAttributeFresh(attrs[1..], name, value);
      assert [attrs[0]] + (attrs[1..] + [Attribute(name, value)]) == attrs + [Attribute(name, value)];
    }
  }

  /** A name that is there is overwritten in place, at its first occurrence. */
  lemma {:induction false} SetAttributeFound(attrs: seq<Attribute>, k: nat, value: string)
    requires k < |attrs| && attrs[k].name !in Names(attrs[..k])
    ensures SetAttribute(attrs, attrs[k].name, value) == attrs[k := Attribute(attrs[k].name, value)]
  {
    var name := attrs[k].name;
    if k > 0 {
      assert Names(attrs[..k])[0] == attrs[0].name;
      assert attrs[1..][k - 1] == attrs[k];
      var before := attrs[1..][..k - 1];
      forall j | 0 <= j < |before| ensures before[j].name != name {
        assert before[j] == attrs[..k][j + 1];
        assert Names(attrs[..k])[j + 1] == before[j].name;
      }
      SetAttributeFound(attrs[1..], k - 1, value);
      assert [attrs[0]] + attrs[1..][k - 1 := Attribute(name, value)] == attrs[k := Attribute(name, value)];
    }
  }

  /** The attributes after setting each of `sets` in turn. */
  function SetAll(attrs: seq<Attribute>, sets: seq<Attribute>): seq<Attribute>
    decreases |sets|
  {
    if sets == [] then attrs else SetAll(SetAttribute(attrs, sets[0].name, sets[0].value), sets[1..])
  }

  /** Setting new, distinct names appends them in order. */
  lemma {:induction false} SetAllFresh(attrs: seq<Attribute>, sets: seq<Attribute>)
    requires Distinct(Names(attrs + sets))
    ensures SetAll(attrs, sets) == attrs + sets
    decreases |sets|
  {
    if sets != [] {
      var all := Names(attrs + sets);
      assert all[|attrs|] == sets[0].name;
      assert sets[0].name !in Names(attrs) by {
        forall i | 0 <= i < |attrs| ensures Names(attrs)[i] != sets[0].name {
          assert Names(attrs)[i] == all[i];
        }
      }
      SetAttributeFresh(attrs, sets[0].name, sets[0].value);
      var next := attrs + [sets[0]];
      assert next + sets[1..] == attrs + sets;
      SetAllFresh(next, sets[1..]);
    }
  }

  /** Setting one list after another is setting their concatenation. */
  lemma {:induction false} SetAllAppend(attrs: seq<Attribute>, first: seq<Attribute>, second: seq<Attribute>)
    ensures SetAll(attrs, first + second) == SetAll(SetAll(attrs, first), second)
    decreases |first|
  {
    if first == [] {
      assert first + second == second;
    } else {
      var next := SetAttribute(attrs, first[0].name, first[0].value);
      assert (first + second)[0] == first[0];
      assert (first + second)[1..] == first[1..] + second;
      assert SetAll(attrs, first + second) == SetAll(next, first[1..] + second);
      SetAllAppend(next, first[1..], second);
    }
  }

  // ---------------------------------------------------------------------------------------
  // Writer

  /** Numbers separated by commas, as the padding and spacing are streamed. */
  function IntList(ns: seq<int>): string
  {
    Join(IntStrings(ns), ',')
  }

  function InfoNames(extra: bool): (names: seq<string>)
    ensures |names| == |INFO_KEYS| + (if extra then 1 else 0)
  {
    if extra then INFO_KEYS + ["style"] else INFO_KEYS
  }

  /** The info attribute values in the order they are set; `style` only with extra info. */
  function InfoValues(f: FontInfo): (vs: seq<string>)
    requires IsU8(f.info.charset)
    ensures |vs| == |InfoNames(f.extraInfo)|
  {
    NamedInfoValues(f.info, WrittenCharsetName(f.info), f.extraInfo)
  }

  /** The info texts with the charset written as `charsetName`; `style` follows with extra info. */
  function NamedInfoValues(i: Info, charsetName: string, extra: bool): (vs: seq<string>)
    ensures |vs| == |InfoNames(extra)|
    ensures vs[..12] == StandardInfoValues(i, charsetName)
  {
    var standard := StandardInfoValues(i, charsetName);
    if extra then standard + [i.style] else standard
  }

  /** The texts of the twelve standard info attributes, in `INFO_KEYS` order. */
  function StandardInfoValues(i: Info, charsetName: string): (vs: seq<string>)
    ensures |vs| == 12
  {
    [i.face, IntToString(i.size), IntToString(Bit(i.bold)), IntToString(Bit(i.italic)),
     charsetName, IntToString(Bit(i.unicode)), IntToString(i.stretchH),
     IntToString(Bit(i.smooth)), IntToString(i.aa),
     IntList([i.paddingUp, i.paddingRight, i.paddingDown, i.paddingLeft]),
     IntList([i.spacingHor, i.spacingVer]), IntToString(i.outline)]
  }

  function InfoElement(f: FontInfo): Element
    requires IsU8(f.info.charset)
  {
    Element("info", SetAll([], Zip(InfoNames(f.extraInfo), InfoValues(f))), [])
  }

  /** The common attribute names in the order they are set, the descent under `descentName`. */
  function CommonNames(extra: bool, descentName: string): (names: seq<string>)
    ensures |names| == if extra then 12 else 10
  {
    if extra then COMMON_KEYS + [descentName, "totalHeight"] else COMMON_KEYS
  }

  /** The common numbers in the order they are set; the page count is cast to `int`. */
  function CommonNumbers(f: FontInfo): (ns: seq<int>)
    ensures |ns| == if f.extraInfo then 12 else 10
  {
    var c := f.common;
    var standard := [c.lineHeight, c.base, c.scaleW, c.scaleH, ToI32(|f.pages|), Bit(c.packed),
                     c.alphaChnl, c.redChnl, c.greenChnl, c.blueChnl];
    if f.extraInfo then standard + [c.descent, c.totalHeight] else standard
  }

  function CommonElement(f: FontInfo, descentName: string): Element
  {
    Element("common", SetAll([], Zip(CommonNames(f.extraInfo, descentName), IntStrings(CommonNumbers(f)))), [])
  }

  /** A page: its index as an `unsigned int`, and its file name. */
  function PageElement(id: nat, file: string): Element
  {
    Element("page", SetAll([], [Attribute("id", NatToString(ToU32(id))), Attribute("file", file)]), [])
  }

  function PageElements(pages: seq<string>): (es: seq<Element>)
    ensures |es| == |pages| && forall i :: 0 <= i < |pages| ==> es[i] == PageElement(i, pages[i])
  {
    seq(|pages|, i requires 0 <= i < |pages| => PageElement(i, pages[i]))
  }

  function CharElement(c: Char): Element
  {
    Element("char", SetAll([], Zip(CHAR_KEYS, IntStrings(CharNumbers(c)))), [])
  }

  function KerningElement(k: Kerning): Element
  {
    Element("kerning", SetAll([], Zip(KERNING_KEYS, IntStrings(KerningNumbers(k)))), [])
  }

  function CharElements(cs: seq<Char>): (es: seq<Element>)
    ensures |es| == |cs| && forall i :: 0 <= i < |cs| ==> es[i] == CharElement(cs[i])
  {
    seq(|cs|, i requires 0 <= i < |cs| => CharElement(cs[i]))
  }

  function KerningElements(ks: seq<Kerning>): (es: seq<Element>)
    ensures |es| == |ks| && forall i :: 0 <= i < |ks| ==> es[i] == KerningElement(ks[i])
  {
    seq(|ks|, i requires 0 <= i < |ks| => KerningElement(ks[i]))
  }

  /** A list element that carries its item count, cast to `int`. */
  function Counted(tag: string, items: seq<Element>): Element
  {
    Element(tag, SetAll([], [Attribute("count", IntToString(ToI32(|items|)))]), items)
  }

  /** The `font` element, with the descent set under `descentName`. */
  function Tree(f: FontInfo, descentName: string): Element
    requires IsU8(f.info.charset)
  {
    Root(InfoElement(f), CommonElement(f, descentName), f.pages, f.chars, f.kernings)
  }

  /** The `font` element around the info and common elements and the three lists. */
  function Root(info: Element, common: Element, pages: seq<string>, cs: seq<Char>, ks: seq<Kerning>): Element
  {
    Element("font", [], [info, common, Element("pages", [], PageElements(pages)),
                         Counted("chars", CharElements(cs)), Counted("kernings", KerningElements(ks))])
  }

  /** The tree `writeToXmlFile` builds: the descent overwrites `base`. */
  function WriteAsWritten(f: FontInfo): Element
    requires IsU8(f.info.charset)
  {
    Tree(f, "base")
  }

  /** The tree with the descent in its own `descent` attribute. */
  function Write(f: FontInfo): Element
    requires IsU8(f.info.charset)
  {
    Tree(f, "descent")
  }

  // ---------------------------------------------------------------------------------------
  // Reader

  /** Every text read as a decimal integer. */
  function ParseInts(ss: seq<string>): (r: Option<seq<int>>)
    ensures r.Some? <==> forall i :: 0 <= i < |ss| ==> ParseInt(ss[i]).Some?
    ensures r.Some? ==> |r.value| == |ss| && forall i :: 0 <= i < |ss| ==> Some(r.value[i]) == ParseInt(ss[i])
  {
    if forall i :: 0 <= i < |ss| ==> ParseInt(ss[i]).Some?
    then Some(seq(|ss|, i requires 0 <= i < |ss| && ParseInt(ss[i]).Some? => ParseInt(ss[i]).value))
    else None
  }

  /** Exactly `count` comma-separated integers. */
  function ParseIntList(s: string, count: nat): (r: Option<seq<int>>)
    ensures r.Some? ==> |r.value| == count
  {
    var parts := Split(s, ',');
    if |parts| == count then ParseInts(parts) else None
  }

  /** The info record from the attribute values, in `InfoNames` order. */
  function InfoFrom(vs: seq<string>, extra: bool): Option<Info>
    requires |vs| == |InfoNames(extra)|
  {
    var ns :- ParseInts([vs[1], vs[2], vs[3], vs[5], vs[6], vs[7], vs[8], vs[11]]);
    var charset :- CharsetOfName(vs[4]);
    var padding :- ParseIntList(vs[9], 4);
    var spacing :- ParseIntList(vs[10], 2);
    Some(Info(vs[0], if extra then vs[12] else "", ns[0], ns[1] != 0, ns[2] != 0, charset, ns[3] != 0,
              ns[4], ns[5] != 0, ns[6], padding[0], padding[1], padding[2], padding[3], spacing[0],
              spacing[1], ns[7]))
  }

  /** The info element, and whether it carried the extra `style` attribute. */
  function DecodeInfo(e: Element): Option<(Info, bool)>
  {
    var extra := |e.attrs| == |INFO_KEYS| + 1;
    if e.tag != "info" || e.children != [] || Names(e.attrs) != InfoNames(extra) then None
    else
      var info :- InfoFrom(Values(e.attrs), extra);
      Some((info, extra))
  }

  /**
   The common element, the page count it announces, and whether it carried extra members.
   Three layouts are read: the ten common attributes; those and `totalHeight` (the descent
   then sits in `base`); and those and `descent` and `totalHeight`.
   */
  function DecodeCommon(e: Element): Option<(Common, int, bool)>
  {
    var names := Names(e.attrs);
    if e.tag != "common" || e.children != []
       || !(names == COMMON_KEYS || names == COMMON_KEYS + ["totalHeight"]
            || names == COMMON_KEYS + ["descent", "totalHeight"])
    then None
    else
      var ns :- ParseInts(Values(e.attrs));
      var totalHeight := if |ns| > 10 then ns[|ns| - 1] else 0;
      var descent := if |ns| == 12 then ns[10] else 0;
      Some((Common(ns[0], ns[1], ns[2], ns[3], ns[5] != 0, ns[6], ns[7], ns[8], ns[9], totalHeight,
                   descent), ns[4], |ns| > 10))
  }

  /** A page element at position `index`: its id must be that index as an `unsigned int`. */
  function DecodePage(e: Element, index: nat): Option<string>
  {
    if e.tag != "page" || e.children != [] || Names(e.attrs) != ["id", "file"]
       || ParseNat(e.attrs[0].value) != Some(ToU32(index))
    then None
    else Some(e.attrs[1].value)
  }

  /** The page elements from position `from` on. */
  function DecodePages(es: seq<Element>, from: nat): (r: Option<seq<string>>)
    ensures r.Some? ==> |r.value| == |es|
  {
    if es == [] then Some([])
    else
      var page :- DecodePage(es[0], from);
      var rest :- DecodePages(es[1..], from + 1);
      Some([page] + rest)
  }

  /** The numbers of an element with exactly the attributes `names`. */
  function NumbersOf(e: Element, tag: string, names: seq<string>): (r: Option<seq<int>>)
    ensures r.Some? ==> |r.value| == |names|
  {
    if e.tag != tag || e.children != [] || Names(e.attrs) != names then None
    else ParseInts(Values(e.attrs))
  }

  function DecodeChar(e: Element): Option<Char>
  {
    var ns :- NumbersOf(e, "char", CHAR_KEYS);
    Some(Char(ns[0], ns[1], ns[2], ns[3], ns[4], ns[5], ns[6], ns[7], ns[8], ns[9]))
  }

  function DecodeKerning(e: Element): Option<Kerning>
  {
    var ns :- NumbersOf(e, "kerning", KERNING_KEYS);
    Some(Kerning(ns[0], ns[1], ns[2]))
  }

  /** The items of a list element whose `count` matches them. */
  function CountedItems(e: Element, tag: string): Option<seq<Element>>
  {
    if e.tag != tag || Names(e.attrs) != ["count"]
       || ParseInt(e.attrs[0].value) != Some(ToI32(|e.children|))
    then None
    else Some(e.children)
  }

  /** The pages, characters and kerning pairs of the three list elements. */
  function DecodeLists(pagesElement: Element, charsElement: Element, kerningsElement: Element)
    : Option<(seq<string>, seq<Char>, seq<Kerning>)>
  {
    if pagesElement.tag != "pages" || pagesElement.attrs != [] then None
    else
      var pages :- DecodePages(pagesElement.children, 0);
      var charItems :- CountedItems(charsElement, "chars");
      var kerningItems :- CountedItems(kerningsElement, "kernings");
      var chars :- DecodeEach(charItems, DecodeChar);
      var kernings :- DecodeEach(kerningItems, DecodeKerning);
      Some((pages, chars, kernings))
  }

  /** Reads a tree: the five elements, with as many pages as the common element announces. */
  function Decode(root: Element): Option<FontInfo>
  {
    if root.tag != "font" || root.attrs != [] || |root.children| != 5 then None
    else
      var (info, extra) :- DecodeInfo(root.children[0]);
      var (common, count, extra') :- DecodeCommon(root.children[1]);
      if extra' != extra || count != ToI32(|root.children[2].children|) then None
      else
        var (pages, chars, kernings) :- DecodeLists(root.children[2], root.children[3], root.children[4]);
        Some(FontInfo(info, common, pages, chars, kernings, extra))
  }

  // ---------------------------------------------------------------------------------------
  // Round trip

  lemma InfoNamesDistinct(extra: bool)
    ensures Distinct(InfoNames(extra))
  {
  }

  lemma CommonNamesDistinct()
    ensures Distinct(COMMON_KEYS + ["descent", "totalHeight"])
    ensures Distinct(COMMON_KEYS + ["totalHeight"]) && Distinct(COMMON_KEYS)
    ensures COMMON_KEYS[1] == "base"
  {
  }

  lemma OtherNamesDistinct()
    ensures Distinct(CHAR_KEYS) && Distinct(KERNING_KEYS) && Distinct(["id", "file"])
  {
  }

  /** Fresh names set on an empty element come out as they were set. */
  lemma SetAllDistinct(sets: seq<Attribute>)
    requires Distinct(Names(sets))
    ensures SetAll([], sets) == sets
  {
    assert [] + sets == sets;
    SetAllFresh([], sets);
  }

  /** Setting `base` a second time overwrites the second attribute in place. */
  lemma OverwriteBase(names: seq<string>, vals: seq<string>, descent: string, total: string)
    requires |names| == |vals| >= 2 && names[1] == "base" && Distinct(names + ["totalHeight"])
    ensures SetAll([], Zip(names + ["base", "totalHeight"], vals + [descent, total]))
            == Zip(names + ["totalHeight"], vals[1 := descent] + [total])
  {
    var standard := Zip(names, vals);
    var extras := [Attribute("base", descent), Attribute("totalHeight", total)];
    assert Zip(names + ["base", "totalHeight"], vals + [descent, total]) == standard + extras;
    SetAllAppend([], standard, extras);
    assert Distinct(names) by {
      assert forall i :: 0 <= i < |names| ==> names[i] == (names + ["totalHeight"])[i];
    }
    SetAllDistinct(standard);
    assert Names(standard[..1]) == [names[0]];
    assert names[0] != names[1] by {
      assert (names + ["totalHeight"])[0] == names[0] && (names + ["totalHeight"])[1] == names[1];
    }
    SetAttributeFound(standard, 1, descent);
    var overwritten := standard[1 := Attribute("base", descent)];
    assert overwritten == Zip(names, vals[1 := descent]);
    assert "totalHeight" !in names by {
      assert forall i :: 0 <= i < |names| ==> names[i] == (names + ["totalHeight"])[i];
      assert (names + ["totalHeight"])[|names|] == "totalHeight";
    }
    SetAttributeFresh(overwritten, "totalHeight", total);
    assert SetAll(overwritten, [extras[1]]) == SetAttribute(overwritten, "totalHeight", total);
    assert [extras[1]] == extras[1..];
  }

  lemma ParseIntsOf(ns: seq<int>)
    ensures ParseInts(IntStrings(ns)) == Some(ns)
  {
    forall i | 0 <= i < |ns| ensures ParseInt(IntStrings(ns)[i]) == Some(ns[i]) {
      ParseIntToString(ns[i]);
    }
    var r := ParseInts(IntStrings(ns));
    assert r.value == ns;
  }

  lemma IntTextNoComma(n: int)
    ensures ',' !in IntToString(n)
  {
    var s := IntToString(n);
    if n >= 0 {
      assert forall i :: 0 <= i < |s| ==> IsDigit(s[i]);
    } else {
      assert s == "-" + NatToString(-n);
      assert forall i :: 1 <= i < |s| ==> s[i] == NatToString(-n)[i - 1];
    }
  }

  /** A comma-separated list of numbers reads back as the numbers. */
  lemma ParseIntListOf(ns: seq<int>)
    requires |ns| >= 1
    ensures ParseIntList(IntList(ns), |ns|) == Some(ns)
  {
    var texts := IntStrings(ns);
    forall i | 0 <= i < |texts| ensures ',' !in texts[i] {
      IntTextNoComma(ns[i]);
    }
    SplitJoin(texts, ',');
    ParseIntsOf(ns);
  }

  /** The info reader, given what the attribute values read as. */
  lemma InfoFromOf(vs: seq<string>, extra: bool, ns: seq<int>, charset: int, padding: seq<int>,
                   spacing: seq<int>)
    requires |vs| == |InfoNames(extra)| && |ns| == 8
    requires ParseInts([vs[1], vs[2], vs[3], vs[5], vs[6], vs[7], vs[8], vs[11]]) == Some(ns)
    requires CharsetOfName(vs[4]) == Some(charset)
    requires ParseIntList(vs[9], 4) == Some(padding) && ParseIntList(vs[10], 2) == Some(spacing)
    ensures InfoFrom(vs, extra)
            == Some(Info(vs[0], if extra then vs[12] else "", ns[0], ns[1] != 0, ns[2] != 0, charset,
                         ns[3] != 0, ns[4], ns[5] != 0, ns[6], padding[0], padding[1], padding[2],
                         padding[3], spacing[0], spacing[1], ns[7]))
  {
  }

  lemma PickedTexts(picked: seq<string>, ns: seq<int>)
    requires |picked| == |ns| == 8
    requires picked[0] == IntToString(ns[0]) && picked[1] == IntToString(ns[1])
    requires picked[2] == IntToString(ns[2]) && picked[3] == IntToString(ns[3])
    requires picked[4] == IntToString(ns[4]) && picked[5] == IntToString(ns[5])
    requires picked[6] == IntToString(ns[6]) && picked[7] == IntToString(ns[7])
    ensures picked == IntStrings(ns)
  {
    assert forall k | 0 <= k < 8 :: picked[k] == IntStrings(ns)[k];
  }

  /** What the written info numbers read as. */
  lemma InfoNumbersRead(i: Info, charsetName: string)
    ensures var vs := StandardInfoValues(i, charsetName);
      ParseInts([vs[1], vs[2], vs[3], vs[5], vs[6], vs[7], vs[8], vs[11]])
      == Some([i.size, Bit(i.bold), Bit(i.italic), Bit(i.unicode), i.stretchH, Bit(i.smooth), i.aa, i.outline])
  {
    var vs := StandardInfoValues(i, charsetName);
    var ns := [i.size, Bit(i.bold), Bit(i.italic), Bit(i.unicode), i.stretchH, Bit(i.smooth), i.aa,
               i.outline];
    PickedTexts([vs[1], vs[2], vs[3], vs[5], vs[6], vs[7], vs[8], vs[11]], ns);
    ParseIntsOf(ns);
  }

  /** The padding and spacing lists read back as their numbers. */
  lemma InfoListsRead(i: Info)
    ensures ParseIntList(IntList([i.paddingUp, i.paddingRight, i.paddingDown, i.paddingLeft]), 4)
      == Some([i.paddingUp, i.paddingRight, i.paddingDown, i.paddingLeft])
    ensures ParseIntList(IntList([i.spacingHor, i.spacingVer]), 2) == Some([i.spacingHor, i.spacingVer])
  {
    ParseIntListOf([i.paddingUp, i.paddingRight, i.paddingDown, i.paddingLeft]);
    ParseIntListOf([i.spacingHor, i.spacingVer]);
  }

  lemma InfoRead(f: FontInfo)
    requires IsU8(f.info.charset)
    ensures DecodeInfo(InfoElement(f)) == Some((WrittenView(f).info, f.extraInfo))
  {
    var i := f.info;
    InfoNamesDistinct(f.extraInfo);
    SetAllDistinct(Zip(InfoNames(f.extraInfo), InfoValues(f)));
    WrittenCharsetNameRead(i);
    NamedInfoRead(i, WrittenCharsetName(i), WrittenCharset(i), f.extraInfo);
  }

  /** The info texts read back as the info, with the charset the name stands for. */
  lemma NamedInfoRead(i: Info, charsetName: string, charset: int, extra: bool)
    requires CharsetOfName(charsetName) == Some(charset)
    ensures InfoFrom(NamedInfoValues(i, charsetName, extra), extra)
      == Some(i.(charset := charset, style := if extra then i.style else ""))
  {
    var vs := NamedInfoValues(i, charsetName, extra);
    var st := StandardInfoValues(i, charsetName);
    InfoNumbersRead(i, charsetName);
    InfoListsRead(i);
    assert [vs[1], vs[2], vs[3], vs[5], vs[6], vs[7], vs[8], vs[11]]
        == [st[1], st[2], st[3], st[5], st[6], st[7], st[8], st[11]];
    assert vs[0] == st[0] && vs[4] == st[4] && vs[9] == st[9] && vs[10] == st[10];
    InfoFromOf(vs, extra,
               [i.size, Bit(i.bold), Bit(i.italic), Bit(i.unicode), i.stretchH, Bit(i.smooth), i.aa, i.outline],
               charset, [i.paddingUp, i.paddingRight, i.paddingDown, i.paddingLeft],
               [i.spacingHor, i.spacingVer]);
  }

  /** The common reader on attributes that are all numbers. */
  lemma DecodeCommonOf(e: Element, ns: seq<int>, names: seq<string>)
    requires e.tag == "common" && e.children == []
    requires names == COMMON_KEYS || names == COMMON_KEYS + ["totalHeight"]
             || names == COMMON_KEYS + ["descent", "totalHeight"]
    requires |ns| == |names| && e.attrs == Zip(names, IntStrings(ns))
    ensures DecodeCommon(e)
            == Some((Common(ns[0], ns[1], ns[2], ns[3], ns[5] != 0, ns[6], ns[7], ns[8], ns[9],
                            if |ns| > 10 then ns[|ns| - 1] else 0, if |ns| == 12 then ns[10] else 0),
                     ns[4], |ns| > 10))
  {
    ParseIntsOf(ns);
  }

  lemma CommonRead(f: FontInfo)
    ensures DecodeCommon(CommonElement(f, "descent"))
            == Some((WrittenView(f).common, ToI32(|f.pages|), f.extraInfo))
  {
    var names := CommonNames(f.extraInfo, "descent");
    CommonNamesDistinct();
    SetAllDistinct(Zip(names, IntStrings(CommonNumbers(f))));
    DecodeCommonOf(CommonElement(f, "descent"), CommonNumbers(f), names);
  }

  /** What the program's XML carries of a descriptor: with extra info, `base` reads as the descent. */
  function AsWrittenView(f: FontInfo): FontInfo
  {
    var w := WrittenView(f);
    if f.extraInfo then w.(common := w.common.(base := f.common.descent, descent := 0)) else w
  }

  /** The common attributes as the program sets them: with extra info, `base` holds the descent. */
  lemma CommonAttrsAsWritten(f: FontInfo)
    requires f.extraInfo
    ensures var ns := CommonNumbers(f);
      CommonElement(f, "base").attrs
      == Zip(COMMON_KEYS + ["totalHeight"], IntStrings(ns[..10][1 := f.common.descent] + [ns[11]]))
  {
    var ns := CommonNumbers(f);
    var vals := IntStrings(ns[..10]);
    CommonNamesDistinct();
    assert IntStrings(ns) == vals + [IntToString(ns[10]), IntToString(ns[11])];
    OverwriteBase(COMMON_KEYS, vals, IntToString(ns[10]), IntToString(ns[11]));
    assert vals[1 := IntToString(ns[10])] + [IntToString(ns[11])]
           == IntStrings(ns[..10][1 := f.common.descent] + [ns[11]]);
  }

  lemma CommonReadAsWritten(f: FontInfo)
    ensures DecodeCommon(CommonElement(f, "base"))
            == Some((AsWrittenView(f).common, ToI32(|f.pages|), f.extraInfo))
  {
    if f.extraInfo {
      CommonAttrsAsWritten(f);
      var ns := CommonNumbers(f);
      DecodeCommonOf(CommonElement(f, "base"), ns[..10][1 := f.common.descent] + [ns[11]],
                     COMMON_KEYS + ["totalHeight"]);
    } else {
      CommonRead(f);
    }
  }

  lemma PageRead(id: nat, file: string)
    ensures DecodePage(PageElement(id, file), id) == Some(file)
  {
    OtherNamesDistinct();
    var sets := [Attribute("id", NatToString(ToU32(id))), Attribute("file", file)];
    assert Names(sets) == ["id", "file"];
    SetAllDistinct(sets);
    ParseNatToString(ToU32(id));
  }

  lemma {:induction false} PagesRead(pages: seq<string>, from: nat, es: seq<Element>)
    requires |es| == |pages| && forall i :: 0 <= i < |pages| ==> es[i] == PageElement(from + i, pages[i])
    ensures DecodePages(es, from) == Some(pages)
    decreases |pages|
  {
    if pages != [] {
      PageRead(from, pages[0]);
      assert forall i :: 0 <= i < |pages| - 1 ==> es[1..][i] == es[i + 1];
      PagesRead(pages[1..], from + 1, es[1..]);
      assert [pages[0]] + pages[1..] == pages;
    }
  }

  lemma NumbersRead(tag: string, names: seq<string>, ns: seq<int>)
    requires |names| == |ns| && Distinct(names)
    ensures NumbersOf(Element(tag, SetAll([], Zip(names, IntStrings(ns))), []), tag, names) == Some(ns)
  {
    SetAllDistinct(Zip(names, IntStrings(ns)));
    ParseIntsOf(ns);
  }

  lemma CharRead(c: Char)
    ensures DecodeChar(CharElement(c)) == Some(c)
  {
    OtherNamesDistinct();
    NumbersRead("char", CHAR_KEYS, CharNumbers(c));
  }

  lemma KerningRead(k: Kerning)
    ensures DecodeKerning(KerningElement(k)) == Some(k)
  {
    OtherNamesDistinct();
    NumbersRead("kerning", KERNING_KEYS, KerningNumbers(k));
  }

  lemma CountedRead(tag: string, items: seq<Element>)
    ensures CountedItems(Counted(tag, items), tag) == Some(items)
  {
    var sets := [Attribute("count", IntToString(ToI32(|items|)))];
    assert Names(sets) == ["count"];
    SetAllDistinct(sets);
    ParseIntToString(ToI32(|items|));
  }

  lemma PageListRead(pages: seq<string>)
    ensures DecodePages(PageElements(pages), 0) == Some(pages)
  {
    PagesRead(pages, 0, PageElements(pages));
  }

  lemma CharListRead(cs: seq<Char>)
    ensures CountedItems(Counted("chars", CharElements(cs)), "chars") == Some(CharElements(cs))
    ensures DecodeEach(CharElements(cs), DecodeChar) == Some(cs)
  {
    CountedRead("chars", CharElements(cs));
    var es := CharElements(cs);
    forall i | 0 <= i < |es| ensures DecodeChar(es[i]) == Some(cs[i]) {
      CharRead(cs[i]);
    }
    DecodeEachOf(es, cs, DecodeChar);
  }

  lemma KerningListRead(ks: seq<Kerning>)
    ensures CountedItems(Counted("kernings", KerningElements(ks)), "kernings") == Some(KerningElements(ks))
    ensures DecodeEach(KerningElements(ks), DecodeKerning) == Some(ks)
  {
    CountedRead("kernings", KerningElements(ks));
    var es := KerningElements(ks);
    forall i | 0 <= i < |es| ensures DecodeKerning(es[i]) == Some(ks[i]) {
      KerningRead(ks[i]);
    }
    DecodeEachOf(es, ks, DecodeKerning);
  }

  lemma ListsRead(pages: seq<string>, cs: seq<Char>, ks: seq<Kerning>)
    ensures DecodeLists(Element("pages", [], PageElements(pages)), Counted("chars", CharElements(cs)),
                        Counted("kernings", KerningElements(ks)))
            == Some((pages, cs, ks))
  {
    PageListRead(pages);
    CharListRead(cs);
    KerningListRead(ks);
  }

  /** The tree reader, given what each child reads as. */
  lemma DecodeChildren(root: Element, info: Info, common: Common, pages: seq<string>, cs: seq<Char>,
                       ks: seq<Kerning>, extra: bool)
    requires root.tag == "font" && root.attrs == [] && |root.children| == 5
    requires DecodeInfo(root.children[0]) == Some((info, extra))
    requires DecodeCommon(root.children[1]) == Some((common, ToI32(|pages|), extra))
    requires |root.children[2].children| == |pages|
    requires DecodeLists(root.children[2], root.children[3], root.children[4]) == Some((pages, cs, ks))
    ensures Decode(root) == Some(FontInfo(info, common, pages, cs, ks, extra))
  {
  }

  /** The children of a written tree. */
  lemma TreeChildren(f: FontInfo, descentName: string)
    requires IsU8(f.info.charset)
    ensures var root := Tree(f, descentName);
      && root.tag == "font" && root.attrs == [] && |root.children| == 5
      && root.children[0] == InfoElement(f) && root.children[1] == CommonElement(f, descentName)
      && root.children[2] == Element("pages", [], PageElements(f.pages))
      && root.children[3] == Counted("chars", CharElements(f.chars))
      && root.children[4] == Counted("kernings", KerningElements(f.kernings))
  {
    RootChildren(InfoElement(f), CommonElement(f, descentName), f.pages, f.chars, f.kernings);
  }

  lemma RootChildren(info: Element, common: Element, pages: seq<string>, cs: seq<Char>, ks: seq<Kerning>)
    ensures var root := Root(info, common, pages, cs, ks);
      && root.tag == "font" && root.attrs == [] && |root.children| == 5
      && root.children[0] == info && root.children[1] == common
      && root.children[2] == Element("pages", [], PageElements(pages))
      && root.children[3] == Counted("chars", CharElements(cs))
      && root.children[4] == Counted("kernings", KerningElements(ks))
  {
  }

  /**
   Reading the tree with a `descent` attribute gives back the descriptor, up to what the
   format does not carry: the charset of a Unicode descriptor, and the extra-info fields
   when they are off.
   */
  lemma XmlRoundTrip(f: FontInfo)
    requires IsU8(f.info.charset)
    ensures Decode(Write(f)) == Some(WrittenView(f))
  {
    InfoRead(f);
    CommonRead(f);
    TreeChildren(f, "descent");
    ListsRead(f.pages, f.chars, f.kernings);
    var w := WrittenView(f);
    DecodeChildren(Write(f), w.info, w.common, f.pages, f.chars, f.kernings, f.extraInfo);
  }

  /** Reading the tree the program writes gives `base` the descent and loses the baseline. */
  lemma XmlAsWrittenRoundTrip(f: FontInfo)
    requires IsU8(f.info.charset)
    ensures Decode(WriteAsWritten(f)) == Some(AsWrittenView(f))
  {
    InfoRead(f);
    CommonReadAsWritten(f);
    TreeChildren(f, "base");
    ListsRead(f.pages, f.chars, f.kernings);
    var w := AsWrittenView(f);
    DecodeChildren(WriteAsWritten(f), w.info, w.common, f.pages, f.chars, f.kernings, f.extraInfo);
  }

  /**
   With extra info the program's common element holds the descent under `base` and has no
   `descent`, where the corrected one keeps the baseline in `base`.
   */
  lemma BaseOverwritten(f: FontInfo)
    requires f.extraInfo
    ensures Lookup(CommonElement(f, "base").attrs, "base") == Some(IntToString(f.common.descent))
    ensures Lookup(CommonElement(f, "base").attrs, "descent").None?
    ensures Lookup(CommonElement(f, "descent").attrs, "base") == Some(IntToString(f.common.base))
  {
    AsWrittenBase(f);
    CorrectedBase(f);
  }

  lemma AsWrittenBase(f: FontInfo)
    requires f.extraInfo
    ensures Lookup(CommonElement(f, "base").attrs, "base") == Some(IntToString(f.common.descent))
    ensures Lookup(CommonElement(f, "base").attrs, "descent").None?
  {
    CommonAttrsAsWritten(f);
    CommonNamesDistinct();
    var written := CommonElement(f, "base").attrs;
    assert written[0].name == "lineHeight" && written[1].name == "base";
    assert Lookup(written, "base") == Lookup(written[1..], "base");
    assert "descent" !in Names(written) by {
      var all := COMMON_KEYS + ["descent", "totalHeight"];
      assert Names(written) == all[..10] + [all[11]];
    }
  }

  lemma CorrectedBase(f: FontInfo)
    requires f.extraInfo
    ensures Lookup(CommonElement(f, "descent").attrs, "base") == Some(IntToString(f.common.base))
  {
    CommonNamesDistinct();
    var texts := IntStrings(CommonNumbers(f));
    assert texts[1] == IntToString(f.common.base);
    SecondOfFresh(CommonNames(true, "descent"), texts);
  }

  /** On an element built from distinct names, the second name finds the second value. */
  lemma SecondOfFresh(names: seq<string>, texts: seq<string>)
    requires |names| == |texts| >= 2 && Distinct(names)
    ensures Lookup(SetAll([], Zip(names, texts)), names[1]) == Some(texts[1])
  {
    var attrs := Zip(names, texts);
    SetAllDistinct(attrs);
    assert attrs[0].name != names[1] && attrs[1] == Attribute(names[1], texts[1]);
    assert Lookup(attrs, names[1]) == Lookup(attrs[1..], names[1]);
  }

  /** So whenever the baseline and the descent differ, the program's XML does not read back. */
  lemma AsWrittenLosesBase(f: FontInfo)
    requires IsU8(f.info.charset) && f.extraInfo && f.common.base != f.common.descent
    ensures Decode(WriteAsWritten(f)) != Some(WrittenView(f))
  {
    XmlAsWrittenRoundTrip(f);
  }
}
