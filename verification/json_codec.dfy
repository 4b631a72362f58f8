/**
 The JSON descriptor (`FontInfo::writeToJsonFile`) as the `nlohmann::json` tree it builds,
 and a reader that takes such a tree apart again.

 A JSON object is a map from keys to values (`nlohmann::json` keeps objects in a `std::map`, so
 the order in which the writer sets keys is not kept). The text that `dump(4)` prints is not
 part of this model.
 */
module JsonCodec {
  import opened Wrappers
  import opened MachineInts
  import opened FontInfo

  datatype Json =
    | Num(n: int)
    | Str(s: string)
    | Arr(items: seq<Json>)
    | Obj(fields: map<string, Json>)

  // ---------------------------------------------------------------------------------------
  // Objects built by assignment

  /** No key occurs twice. */
  predicate Distinct(keys: seq<string>)
  {
    forall i, j :: 0 <= i < j < |keys| ==> keys[i] != keys[j]
  }

  /** The object that the assignments `node[keys[0]] = vals[0]; node[keys[1]] = vals[1]; ...` build. */
  function Assign(keys: seq<string>, vals: seq<Json>): (m: map<string, Json>)
    requires |keys| == |vals|
    ensures m.Keys == set k | k in keys
  {
    if keys == [] then map[]
    else Assign(keys[..|keys| - 1], vals[..|keys| - 1])[keys[|keys| - 1] := vals[|keys| - 1]]
  }

  /** The values of exactly the members `keys`, in that order; `None` when the object has other members. */
  function Members(m: map<string, Json>, keys: seq<string>): (r: Option<seq<Json>>)
    ensures r.Some? <==> m.Keys == set k | k in keys
    ensures r.Some? ==> |r.value| == |keys| && forall i :: 0 <= i < |keys| ==> r.value[i] == m[keys[i]]
  {
    if m.Keys == set k | k in keys then Some(seq(|keys|, i requires 0 <= i < |keys| => m[keys[i]]))
    else None
  }

  /** With distinct keys, each key maps to its own value: no later assignment overwrote it. */
  lemma {:induction false} AssignAt(keys: seq<string>, vals: seq<Json>, i: nat)
    requires |keys| == |vals| && Distinct(keys) && i < |keys|
    ensures Assign(keys, vals)[keys[i]] == vals[i]
    decreases |keys|
  {
    var n := |keys| - 1;
    if i < n {
      assert keys[..n][i] == keys[i] && vals[..n][i] == vals[i];
      AssignAt(keys[..n], vals[..n], i);
    }
  }

  /** Reading the members back gives the assigned values. */
  lemma MembersOfAssign(keys: seq<string>, vals: seq<Json>)
    requires |keys| == |vals| && Distinct(keys)
    ensures Members(Assign(keys, vals), keys) == Some(vals)
  {
    var r := Members(Assign(keys, vals), keys);
    forall i | 0 <= i < |keys| ensures r.value[i] == vals[i] {
      AssignAt(keys, vals, i);
    }
    assert r.value == vals;
  }

  // ---------------------------------------------------------------------------------------
  // Member names

  const INFO_MEMBERS: seq<string> :=
    ["size", "smooth", "unicode", "italic", "bold", "charset", "stretchH", "aa", "padding",
     "spacing", "outline", "face"]

  const COMMON_MEMBERS: seq<string> :=
    ["lineHeight", "base", "scaleW", "scaleH", "pages", "packed", "alphaChnl", "redChnl",
     "greenChnl", "blueChnl"]

  const CHAR_MEMBERS: seq<string> :=
    ["id", "x", "y", "width", "height", "xoffset", "yoffset", "xadvance", "page", "chnl"]

  const KERNING_MEMBERS: seq<string> := ["first", "second", "amount"]

  const DOCUMENT_MEMBERS: seq<string> := ["info", "common", "pages", "chars", "kernings"]

  function InfoMembers(extra: bool): seq<string>
  {
    if extra then INFO_MEMBERS + ["style"] else INFO_MEMBERS
  }

  function CommonMembers(extra: bool): seq<string>
  {
    if extra then COMMON_MEMBERS + ["totalHeight", "descent"] else COMMON_MEMBERS
  }

  lemma InfoMembersDistinct(extra: bool)
    ensures Distinct(InfoMembers(extra))
    ensures "style" in InfoMembers(extra) <==> extra
  {
  }

  lemma CommonMembersDistinct(extra: bool)
    ensures Distinct(CommonMembers(extra))
    ensures "descent" in CommonMembers(extra) <==> extra
  {
  }

  lemma OtherMembersDistinct()
    ensures Distinct(CHAR_MEMBERS) && Distinct(KERNING_MEMBERS) && Distinct(DOCUMENT_MEMBERS)
  {
  }

  // ---------------------------------------------------------------------------------------
  // Writer

  function Flag(b: bool): Json { Num(Bit(b)) }

  /** A list of numbers as JSON values. */
  function Nums(ns: seq<int>): (js: seq<Json>)
    ensures |js| == |ns| && forall i :: 0 <= i < |ns| ==> js[i] == Num(ns[i])
  {
    seq(|ns|, i requires 0 <= i < |ns| => Num(ns[i]))
  }

  function InfoValues(f: FontInfo): (vs: seq<Json>)
    requires IsU8(f.info.charset)
    ensures |vs| == |InfoMembers(f.extraInfo)|
  {
    NamedInfoValues(f.info, WrittenCharsetName(f.info), f.extraInfo)
  }

  /** The info values with the charset written as `charsetName`. */
  function NamedInfoValues(i: Info, charsetName: string, extra: bool): (vs: seq<Json>)
    ensures |vs| == |InfoMembers(extra)|
  {
    [Num(i.size), Flag(i.smooth), Flag(i.unicode), Flag(i.italic), Flag(i.bold), Str(charsetName),
     Num(i.stretchH), Num(i.aa),
     Arr(Nums([i.paddingUp, i.paddingRight, i.paddingDown, i.paddingLeft])),
     Arr(Nums([i.spacingHor, i.spacingVer])), Num(i.outline), Str(i.face)]
    + (if extra then [Str(i.style)] else [])
  }

  /** The info object; `style` is set only with extra info. */
  function InfoNode(f: FontInfo): Json
    requires IsU8(f.info.charset)
  {
    Obj(Assign(InfoMembers(f.extraInfo), InfoValues(f)))
  }

  /** The numbers of the common object, in `CommonMembers` order; `pages` is the page count. */
  function CommonNumbers(f: FontInfo): (ns: seq<int>)
    ensures |ns| == |CommonMembers(f.extraInfo)|
  {
    var c := f.common;
    if f.extraInfo
    then [c.lineHeight, c.base, c.scaleW, c.scaleH, |f.pages|, Bit(c.packed), c.alphaChnl, c.redChnl,
          c.greenChnl, c.blueChnl, c.totalHeight, c.descent]
    else [c.lineHeight, c.base, c.scaleW, c.scaleH, |f.pages|, Bit(c.packed), c.alphaChnl, c.redChnl,
          c.greenChnl, c.blueChnl]
  }

  /** The common object; `totalHeight` and `descent` are set only with extra info. */
  function CommonNode(f: FontInfo): Json
  {
    Obj(Assign(CommonMembers(f.extraInfo), Nums(CommonNumbers(f))))
  }

  function CharNode(c: Char): Json
  {
    Obj(Assign(CHAR_MEMBERS, Nums(CharNumbers(c))))
  }

  function KerningNode(k: Kerning): Json
  {
    Obj(Assign(KERNING_MEMBERS, Nums(KerningNumbers(k))))
  }

  function PageNodes(pages: seq<string>): (js: seq<Json>)
    ensures |js| == |pages| && forall i :: 0 <= i < |pages| ==> js[i] == Str(pages[i])
  {
    seq(|pages|, i requires 0 <= i < |pages| => Str(pages[i]))
  }

  function CharNodes(cs: seq<Char>): (js: seq<Json>)
    ensures |js| == |cs| && forall i :: 0 <= i < |cs| ==> js[i] == CharNode(cs[i])
  {
    seq(|cs|, i requires 0 <= i < |cs| => CharNode(cs[i]))
  }

  function KerningNodes(ks: seq<Kerning>): (js: seq<Json>)
    ensures |js| == |ks| && forall i :: 0 <= i < |ks| ==> js[i] == KerningNode(ks[i])
  {
    seq(|ks|, i requires 0 <= i < |ks| => KerningNode(ks[i]))
  }

  /** The document: the five top-level members. */
  function Write(f: FontInfo): Json
    requires IsU8(f.info.charset)
  {
    Obj(Assign(DOCUMENT_MEMBERS, [InfoNode(f), CommonNode(f), Arr(PageNodes(f.pages)),
                                  Arr(CharNodes(f.chars)), Arr(KerningNodes(f.kernings))]))
  }

  // ---------------------------------------------------------------------------------------
  // Reader

  function NumOf(j: Json): Option<int>
  {
    if j.Num? then Some(j.n) else None
  }

  function StrOf(j: Json): Option<string>
  {
    if j.Str? then Some(j.s) else None
  }

  /** The numbers of a list of values that are all numbers. */
  function AllNums(vs: seq<Json>): (r: Option<seq<int>>)
    ensures r.Some? <==> forall i :: 0 <= i < |vs| ==> vs[i].Num?
    ensures r.Some? ==> |r.value| == |vs| && forall i :: 0 <= i < |vs| ==> r.value[i] == vs[i].n
  {
    if forall i :: 0 <= i < |vs| ==> vs[i].Num?
    then Some(seq(|vs|, i requires 0 <= i < |vs| && vs[i].Num? => vs[i].n))
    else None
  }

  /** The numbers of an array of exactly `count` numbers. */
  function NumsOf(j: Json, count: nat): (r: Option<seq<int>>)
    ensures r.Some? ==> |r.value| == count
  {
    if j.Arr? && |j.items| == count then AllNums(j.items) else None
  }

  /** The info record from the values of the info members, in `InfoMembers` order. */
  function InfoFrom(vs: seq<Json>, extra: bool): Option<Info>
    requires |vs| == |InfoMembers(extra)|
  {
    var size :- NumOf(vs[0]);
    var smooth :- NumOf(vs[1]);
    var unicode :- NumOf(vs[2]);
    var italic :- NumOf(vs[3]);
    var bold :- NumOf(vs[4]);
    var name :- StrOf(vs[5]);
    var charset :- CharsetOfName(name);
    var stretchH :- NumOf(vs[6]);
    var aa :- NumOf(vs[7]);
    var padding :- NumsOf(vs[8], 4);
    var spacing :- NumsOf(vs[9], 2);
    var outline :- NumOf(vs[10]);
    var face :- StrOf(vs[11]);
    var style :- if extra then StrOf(vs[12]) else Some("");
    Some(Info(face, style, size, bold != 0, italic != 0, charset, unicode != 0, stretchH,
              smooth != 0, aa, padding[0], padding[1], padding[2], padding[3], spacing[0],
              spacing[1], outline))
  }

  /** The info object, and whether it carried the extra `style` member. */
  function DecodeInfo(j: Json): Option<(Info, bool)>
  {
    if !j.Obj? then None
    else
      var extra := "style" in j.fields;
      var vs :- Members(j.fields, InfoMembers(extra));
      var info :- InfoFrom(vs, extra);
      Some((info, extra))
  }

  /** The common object, the page count it announces, and whether it carried the extra members. */
  function DecodeCommon(j: Json): Option<(Common, int, bool)>
  {
    if !j.Obj? then None
    else
      var extra := "descent" in j.fields;
      var vs :- Members(j.fields, CommonMembers(extra));
      var ns :- AllNums(vs);
      var totalHeight := if extra then ns[10] else 0;
      var descent := if extra then ns[11] else 0;
      Some((Common(ns[0], ns[1], ns[2], ns[3], ns[5] != 0, ns[6], ns[7], ns[8], ns[9],
                   totalHeight, descent), ns[4], extra))
  }

  function DecodeChar(j: Json): Option<Char>
  {
    if !j.Obj? then None
    else
      var vs :- Members(j.fields, CHAR_MEMBERS);
      var ns :- AllNums(vs);
      Some(Char(ns[0], ns[1], ns[2], ns[3], ns[4], ns[5], ns[6], ns[7], ns[8], ns[9]))
  }

  function DecodeKerning(j: Json): Option<Kerning>
  {
    if !j.Obj? then None
    else
      var vs :- Members(j.fields, KERNING_MEMBERS);
      var ns :- AllNums(vs);
      Some(Kerning(ns[0], ns[1], ns[2]))
  }

  function DecodePage(j: Json): Option<string>
  {
    if j.Str? then Some(j.s) else None
  }

  /** Reads a document: the five members, with as many pages as the common object announces. */
  function Decode(j: Json): Option<FontInfo>
  {
    if !j.Obj? then None
    else
      var vs :- Members(j.fields, DOCUMENT_MEMBERS);
      var (info, extra) :- DecodeInfo(vs[0]);
      var (common, count, extra') :- DecodeCommon(vs[1]);
      if extra' != extra || !vs[2].Arr? || |vs[2].items| != count || !vs[3].Arr? || !vs[4].Arr? then None
      else
        var pages :- DecodeEach(vs[2].items, DecodePage);
        var chars :- DecodeEach(vs[3].items, DecodeChar);
        var kernings :- DecodeEach(vs[4].items, DecodeKerning);
        Some(FontInfo(info, common, pages, chars, kernings, extra))
  }

  // ---------------------------------------------------------------------------------------
  // Round trip

  lemma InfoRead(f: FontInfo)
    requires IsU8(f.info.charset)
    ensures DecodeInfo(InfoNode(f)) == Some((WrittenView(f).info, f.extraInfo))
  {
    InfoMembersDistinct(f.extraInfo);
    MembersOfAssign(InfoMembers(f.extraInfo), InfoValues(f));
    InfoValuesRead(f);
  }

  lemma InfoValuesRead(f: FontInfo)
    requires IsU8(f.info.charset)
    ensures InfoFrom(InfoValues(f), f.extraInfo) == Some(WrittenView(f).info)
  {
    WrittenCharsetNameRead(f.info);
    NamedInfoValuesRead(f.info, WrittenCharsetName(f.info), WrittenCharset(f.info), f.extraInfo);
  }

  /** The info values read back, with the charset the name stands for. */
  lemma NamedInfoValuesRead(i: Info, charsetName: string, charset: int, extra: bool)
    requires CharsetOfName(charsetName) == Some(charset)
    ensures InfoFrom(NamedInfoValues(i, charsetName, extra), extra)
      == Some(i.(charset := charset, style := if extra then i.style else ""))
  {
    AllNumsOfNums([i.paddingUp, i.paddingRight, i.paddingDown, i.paddingLeft]);
    AllNumsOfNums([i.spacingHor, i.spacingVer]);
  }

  lemma CommonRead(f: FontInfo)
    ensures DecodeCommon(CommonNode(f)) == Some((WrittenView(f).common, |f.pages|, f.extraInfo))
  {
    var extra := f.extraInfo;
    CommonMembersDistinct(extra);
    MembersOfAssign(CommonMembers(extra), Nums(CommonNumbers(f)));
    DecodeCommonOf(CommonNode(f), CommonNumbers(f), extra);
  }

  /** The common reader on an object whose members are all numbers. */
  lemma DecodeCommonOf(j: Json, ns: seq<int>, extra: bool)
    requires j.Obj? && ("descent" in j.fields <==> extra)
    requires Members(j.fields, CommonMembers(extra)) == Some(Nums(ns))
    ensures |ns| == |CommonMembers(extra)|
    ensures DecodeCommon(j)
            == Some((Common(ns[0], ns[1], ns[2], ns[3], ns[5] != 0, ns[6], ns[7], ns[8], ns[9],
                            if extra then ns[10] else 0, if extra then ns[11] else 0), ns[4], extra))
  {
    AllNumsOfNums(ns);
  }

  /** Numbers written as JSON numbers are read back as the same numbers. */
  lemma AllNumsOfNums(ns: seq<int>)
    ensures AllNums(Nums(ns)) == Some(ns)
  {
    var r := AllNums(Nums(ns));
    assert r.value == ns;
  }

  lemma CharRead(c: Char)
    ensures DecodeChar(CharNode(c)) == Some(c)
  {
    OtherMembersDistinct();
    MembersOfAssign(CHAR_MEMBERS, Nums(CharNumbers(c)));
    AllNumsOfNums(CharNumbers(c));
  }

  lemma KerningRead(k: Kerning)
    ensures DecodeKerning(KerningNode(k)) == Some(k)
  {
    OtherMembersDistinct();
    MembersOfAssign(KERNING_MEMBERS, Nums(KerningNumbers(k)));
    AllNumsOfNums(KerningNumbers(k));
  }

  /** The document reader, given what each member reads as. */
  lemma DecodeMembers(j: Json, vs: seq<Json>, info: Info, common: Common, pages: seq<string>,
                      chars: seq<Char>, kernings: seq<Kerning>, extra: bool)
    requires j.Obj? && Members(j.fields, DOCUMENT_MEMBERS) == Some(vs)
    requires DecodeInfo(vs[0]) == Some((info, extra))
    requires DecodeCommon(vs[1]) == Some((common, |pages|, extra))
    requires vs[2].Arr? && DecodeEach(vs[2].items, DecodePage) == Some(pages)
    requires vs[3].Arr? && DecodeEach(vs[3].items, DecodeChar) == Some(chars)
    requires vs[4].Arr? && DecodeEach(vs[4].items, DecodeKerning) == Some(kernings)
    ensures Decode(j) == Some(FontInfo(info, common, pages, chars, kernings, extra))
  {
  }

  /** The written document's members, and what the info and common objects read as. */
  lemma WrittenMembers(f: FontInfo) returns (vs: seq<Json>)
    requires IsU8(f.info.charset)
    ensures Write(f).Obj? && Members(Write(f).fields, DOCUMENT_MEMBERS) == Some(vs)
    ensures DecodeInfo(vs[0]) == Some((WrittenView(f).info, f.extraInfo))
    ensures DecodeCommon(vs[1]) == Some((WrittenView(f).common, |f.pages|, f.extraInfo))
    ensures vs[2] == Arr(PageNodes(f.pages)) && vs[3] == Arr(CharNodes(f.chars))
    ensures vs[4] == Arr(KerningNodes(f.kernings))
  {
    vs := [InfoNode(f), CommonNode(f), Arr(PageNodes(f.pages)), Arr(CharNodes(f.chars)),
           Arr(KerningNodes(f.kernings))];
    OtherMembersDistinct();
    MembersOfAssign(DOCUMENT_MEMBERS, vs);
    InfoRead(f);
    CommonRead(f);
  }

  /** The three arrays read back as the pages, characters and kerning pairs. */
  lemma ArraysRead(f: FontInfo)
    ensures DecodeEach(PageNodes(f.pages), DecodePage) == Some(f.pages)
    ensures DecodeEach(CharNodes(f.chars), DecodeChar) == Some(f.chars)
    ensures DecodeEach(KerningNodes(f.kernings), DecodeKerning) == Some(f.kernings)
  {
    var chars, kernings := CharNodes(f.chars), KerningNodes(f.kernings);
    DecodeEachOf(PageNodes(f.pages), f.pages, DecodePage);
    forall i | 0 <= i < |chars| ensures DecodeChar(chars[i]) == Some(f.chars[i]) {
      CharRead(f.chars[i]);
    }
    DecodeEachOf(chars, f.chars, DecodeChar);
    forall i | 0 <= i < |kernings| ensures DecodeKerning(kernings[i]) == Some(f.kernings[i]) {
      KerningRead(f.kernings[i]);
    }
    DecodeEachOf(kernings, f.kernings, DecodeKerning);
  }

  /**
   Reading the written tree gives back the descriptor, up to what the JSON format does not
   carry: the charset of a Unicode descriptor, and the extra-info fields when they are off.
   */
  lemma JsonRoundTrip(f: FontInfo)
    requires IsU8(f.info.charset)
    ensures Decode(Write(f)) == Some(WrittenView(f))
  {
    var vs := WrittenMembers(f);
    ArraysRead(f);
    var w := WrittenView(f);
    DecodeMembers(Write(f), vs, w.info, w.common, f.pages, f.chars, f.kernings, f.extraInfo);
  }
}
