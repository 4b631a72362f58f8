/**
 The option values of the command line (src/ProgramOptions.cpp): code-point lists, colours,
 texture size lists, the keyword options, and the defaults and checks `parseCommandLine`
 applies once cxxopts has read the arguments.

 Every parser has a formatter as its partner: the text the user would type for a value reads
 back as that value.
 */
module Options {
  import opened Wrappers
  import opened MachineInts
  import opened Decimal
  import opened Strings
  import opened Layout
  import opened Configuration

  // ---------------------------------------------------------------------------------------
  // Code-point lists (`parseCharsString`)

  const MAX_UTF32: nat := 0x10FFFF
  const CODE_POINT_ERROR := "invalid utf-32 value (out of range 0x000000..0x10ffff)"

  /** The number of leading digits of the given base. */
  function DigitRun(s: string, base: nat): (n: nat)
    requires base == 10 || base == 16
    ensures n <= |s| && AllDigitsIn(s[..n], base)
    ensures n == |s| || !DigitIn(s[n], base)
  {
    if s != [] && DigitIn(s[0], base) then
      var n := DigitRun(s[1..], base);
      assert s[..n + 1] == [s[0]] + s[1..][..n];
      n + 1
    else 0
  }

  /**
   `std::from_chars` into a `uint32_t` that holds 0: the value of the longest run of digits,
   or 0 when there is no digit or the value does not fit (the call then leaves it alone).
   */
  function FromChars(s: string, base: nat): (v: nat)
    requires base == 10 || base == 16
    ensures IsU32(v)
  {
    var n := DigitRun(s, base);
    if n == 0 then 0
    else
      var value := ValueIn(s[..n], base);
      if IsU32(value) then value else 0
  }

  predicate HasHexPrefix(s: string)
  {
    |s| >= 2 && s[0] == '0' && (s[1] == 'x' || s[1] == 'X')
  }

  /** `parse_value`: hexadecimal after a `0x` or `0X` prefix, decimal otherwise. */
  function CodePointValue(s: string): (v: nat)
    ensures IsU32(v)
  {
    if HasHexPrefix(s) then FromChars(s[2..], 16) else FromChars(s, 10)
  }

  /** `std::string::find` of one character. */
  function IndexOf(s: string, c: char): (r: Option<nat>)
    ensures r.Some? ==> r.value < |s| && s[r.value] == c && c !in s[..r.value]
    ensures r.None? ==> c !in s
  {
    if s == [] then None
    else if s[0] == c then Some(0)
    else
      match IndexOf(s[1..], c)
      case None => None
      case Some(i) =>
        assert s[..i + 1] == [s[0]] + s[1..][..i];
        Some(i + 1)
  }

  /** The code points `lo..hi`; none when `lo > hi`. */
  function Span(lo: nat, hi: nat): (r: set<nat>)
    ensures forall c: nat :: c in r <==> lo <= c <= hi
  {
    var xs := Ascending(lo, hi);
    AscendingMembers(lo, hi);
    set c | c in xs
  }

  /** `lo`, `lo + 1`, ..., `hi`. */
  function Ascending(lo: nat, hi: nat): (xs: seq<nat>)
    ensures |xs| == if lo > hi then 0 else hi - lo + 1
    ensures forall i :: 0 <= i < |xs| ==> xs[i] == lo + i
  {
    seq(if lo > hi then 0 else hi - lo + 1, i requires i >= 0 => lo + i)
  }

  lemma AscendingMembers(lo: nat, hi: nat)
    ensures forall c: nat :: c in Ascending(lo, hi) <==> lo <= c <= hi
  {
    var xs := Ascending(lo, hi);
    forall c: nat | lo <= c <= hi ensures c in xs {
      assert xs[c - lo] == c;
    }
  }

  /** One segment: a range split at its first dash, or a single code point. */
  function SegmentChars(seg: string): (r: Result<set<nat>>)
    ensures r.Ok? ==> forall c :: c in r.value ==> c <= MAX_UTF32
  {
    match IndexOf(seg, '-')
    case Some(d) =>
      var lo := CodePointValue(seg[..d]);
      var hi := CodePointValue(seg[d + 1..]);
      if lo > MAX_UTF32 || hi > MAX_UTF32 then Err(CODE_POINT_ERROR) else Ok(Span(lo, hi))
    case None =>
      var v := CodePointValue(seg);
      if v > MAX_UTF32 then Err(CODE_POINT_ERROR) else Ok({v})
  }

  /** The segments in order; one out of range throws, and the set built so far is lost. */
  function SegmentsChars(segs: seq<string>): (r: Result<set<nat>>)
    ensures r.Ok? <==> forall k :: 0 <= k < |segs| ==> SegmentChars(segs[k]).Ok?
    ensures r.Ok? ==> forall k :: 0 <= k < |segs| ==> SegmentChars(segs[k]).value <= r.value
    ensures r.Ok? ==> forall c :: c in r.value ==> exists k :: 0 <= k < |segs| && c in SegmentChars(segs[k]).value
  {
    if segs == [] then Ok({})
    else
      var first :- SegmentChars(segs[0]);
      var rest :- SegmentsChars(segs[1..]);
      assert forall k :: 1 <= k < |segs| ==> segs[k] == segs[1..][k - 1];
      Ok(first + rest)
  }

  /** `parseCharsString`: white space removed, then the comma-separated segments. */
  function ParseCharsString(str: string): (r: Result<set<nat>>)
    ensures r.Ok? ==> forall c :: c in r.value ==> c <= MAX_UTF32
  {
    var s := RemoveSpaces(str);
    if s == [] then Ok({})
    else
      var r := SegmentsChars(GetlinePieces(s, ','));
      assert r.Ok? ==> forall c :: c in r.value ==> c <= MAX_UTF32 by {
        if r.Ok? {
          forall c | c in r.value
            ensures c <= MAX_UTF32
          {
            var k :| 0 <= k < |GetlinePieces(s, ',')| && c in SegmentChars(GetlinePieces(s, ',')[k]).value;
          }
        }
      }
      r
  }

  /** A range as it is typed: `lo-hi`, or just `lo` when both ends agree. */
  datatype CharRange = CharRange(lo: nat, hi: nat)

  function RangeText(r: CharRange): string
  {
    if r.lo == r.hi then NatToString(r.lo) else NatToString(r.lo) + "-" + NatToString(r.hi)
  }

  function RangeTexts(rs: seq<CharRange>): (ts: seq<string>)
    ensures |ts| == |rs| && forall k :: 0 <= k < |rs| ==> ts[k] == RangeText(rs[k])
  {
    seq(|rs|, k requires 0 <= k < |rs| => RangeText(rs[k]))
  }

  /** The code points the ranges cover. */
  function RangesChars(rs: seq<CharRange>): set<nat>
  {
    if rs == [] then {} else Span(rs[0].lo, rs[0].hi) + RangesChars(rs[1..])
  }

  lemma {:induction false} DigitRunAll(s: string, base: nat)
    requires base == 10 || base == 16
    requires AllDigitsIn(s, base)
    ensures DigitRun(s, base) == |s|
  {
    if s != [] {
      DigitRunAll(s[1..], base);
    }
  }

  lemma NoSignInDigits(s: string, c: char)
    requires AllDigits(s) && !IsDigit(c)
    ensures c !in s
  {
    assert forall i :: 0 <= i < |s| ==> s[i] != c;
  }

  /** A run of decimal digits is one segment without a dash, read as its decimal value. */
  lemma DigitsSegment(s: string)
    requires 1 <= |s| && AllDigits(s)
    ensures RemoveSpaces(s) == s && GetlinePieces(s, ',') == [s] && IndexOf(s, '-') == None
    ensures CodePointValue(s) == if IsU32(ValueIn(s, 10)) then ValueIn(s, 10) else 0
  {
    DigitsShape(s);
    DigitsValue(s);
  }

  lemma DigitsShape(s: string)
    requires 1 <= |s| && AllDigits(s)
    ensures RemoveSpaces(s) == s && GetlinePieces(s, ',') == [s] && IndexOf(s, '-') == None
  {
    assert forall i :: 0 <= i < |s| ==> IsDigit(s[i]);
    RemoveSpacesNone(s);
    NoSignInDigits(s, ',');
    NoSignInDigits(s, '-');
    SplitNoSep(s, ',');
  }

  lemma DigitsValue(s: string)
    requires 1 <= |s| && AllDigits(s)
    ensures CodePointValue(s) == if IsU32(ValueIn(s, 10)) then ValueIn(s, 10) else 0
  {
    assert !HasHexPrefix(s) by {
      assert |s| >= 2 ==> IsDigit(s[1]);
    }
    DigitRunAll(s, 10);
    assert s[..|s|] == s;
  }

  /** A decimal code point reads back as itself. */
  lemma DecimalCodePoint(n: nat)
    requires IsU32(n)
    ensures CodePointValue(NatToString(n)) == n
  {
    DigitsSegment(NatToString(n));
  }

  /** `find` stops at the first occurrence. */
  lemma {:induction false} IndexOfFirst(a: string, c: char, b: string)
    requires c !in a
    ensures IndexOf(a + [c] + b, c) == Some(|a|)
  {
    if a != [] {
      assert a[0] != c by { assert a[0] in a; }
      assert (a + [c] + b)[1..] == a[1..] + [c] + b;
      assert c !in a[1..] by { assert forall x :: x in a[1..] ==> x in a; }
      IndexOfFirst(a[1..], c, b);
    }
  }

  /** A typed range reads back as the code points it covers. */
  lemma RangeRead(r: CharRange)
    requires r.lo <= MAX_UTF32 && r.hi <= MAX_UTF32
    ensures SegmentChars(RangeText(r)) == Ok(Span(r.lo, r.hi))
  {
    var a := NatToString(r.lo);
    NoSignInDigits(a, '-');
    DecimalCodePoint(r.lo);
    if r.lo == r.hi {
      assert SegmentChars(a) == Ok({r.lo});
      assert Span(r.lo, r.hi) == {r.lo};
    } else {
      var b := NatToString(r.hi);
      var s := a + "-" + b;
      IndexOfFirst(a, '-', b);
      assert s[..|a|] == a;
      assert s[|a| + 1..] == b;
      DecimalCodePoint(r.hi);
    }
  }

  lemma {:induction false} RangesRead(rs: seq<CharRange>)
    requires forall k :: 0 <= k < |rs| ==> rs[k].lo <= MAX_UTF32 && rs[k].hi <= MAX_UTF32
    ensures SegmentsChars(RangeTexts(rs)) == Ok(RangesChars(rs))
  {
    if rs != [] {
      RangeRead(rs[0]);
      RangesRead(rs[1..]);
      assert RangeTexts(rs)[1..] == RangeTexts(rs[1..]);
    }
  }

  /** Typed characters hold no white space, no comma, and are not empty. */
  lemma RangeTextClean(r: CharRange)
    ensures RangeText(r) != [] && ',' !in RangeText(r)
    ensures forall i :: 0 <= i < |RangeText(r)| ==> !IsSpace(RangeText(r)[i])
  {
    var a := NatToString(r.lo);
    var b := NatToString(r.hi);
    assert forall i :: 0 <= i < |a| ==> IsDigit(a[i]);
    assert forall i :: 0 <= i < |b| ==> IsDigit(b[i]);
    NoSignInDigits(a, ',');
    NoSignInDigits(b, ',');
  }

  lemma {:induction false} RemoveSpacesConcat(a: string, b: string)
    ensures RemoveSpaces(a + b) == RemoveSpaces(a) + RemoveSpaces(b)
    decreases |a|
  {
    if a != [] {
      assert (a + b)[1..] == a[1..] + b;
      RemoveSpacesConcat(a[1..], b);
    } else {
      assert a + b == b;
    }
  }

  lemma {:induction false} RemoveSpacesNone(s: string)
    requires forall i :: 0 <= i < |s| ==> !IsSpace(s[i])
    ensures RemoveSpaces(s) == s
  {
    if s != [] {
      RemoveSpacesNone(s[1..]);
    }
  }

  lemma {:induction false} RemoveSpacesJoin(ts: seq<string>, sep: char)
    requires !IsSpace(sep)
    requires forall k :: 0 <= k < |ts| ==> RemoveSpaces(ts[k]) == ts[k]
    ensures RemoveSpaces(Join(ts, sep)) == Join(ts, sep)
  {
    if |ts| > 1 {
      var rest := ts[1..];
      assert forall k :: 0 <= k < |rest| ==> rest[k] == ts[k + 1];
      RemoveSpacesJoin(rest, sep);
      var j := Join(rest, sep);
      assert Join(ts, sep) == ts[0] + [sep] + j;
      RemoveSpacesConcat(ts[0] + [sep], j);
      RemoveSpacesConcat(ts[0], [sep]);
      assert RemoveSpaces([sep]) == [sep] by { assert [sep][1..] == []; }
    }
  }

  /** What the user types for a list of ranges. */
  function RangesText(rs: seq<CharRange>): string
  {
    Join(RangeTexts(rs), ',')
  }

  /** Typed ranges read back as the code points they cover. */
  lemma CharsRoundTrip(rs: seq<CharRange>)
    requires |rs| >= 1
    requires forall k :: 0 <= k < |rs| ==> rs[k].lo <= MAX_UTF32 && rs[k].hi <= MAX_UTF32
    ensures ParseCharsString(RangesText(rs)) == Ok(RangesChars(rs))
  {
    var ts := RangeTexts(rs);
    forall k | 0 <= k < |ts|
      ensures RemoveSpaces(ts[k]) == ts[k] && ',' !in ts[k] && ts[k] != []
    {
      RangeTextClean(rs[k]);
      RemoveSpacesNone(ts[k]);
    }
    RemoveSpacesJoin(ts, ',');
    SplitJoin(ts, ',');
    var s := Join(ts, ',');
    assert GetlinePieces(s, ',') == ts;
    assert s != [] by {
      if |ts| > 1 {
        assert s == ts[0] + [','] + Join(ts[1..], ',');
      }
    }
    RangesRead(rs);
  }

  /** White space anywhere in the argument is ignored. */
  lemma SpacesIgnored(str: string)
    ensures ParseCharsString(str) == ParseCharsString(RemoveSpaces(str))
  {
    RemoveSpacesNone(RemoveSpaces(str));
  }

  /** A decimal code point above U+10FFFF that fits 32 bits throws. */
  lemma CodePointOutOfRange(n: nat)
    requires MAX_UTF32 < n && IsU32(n)
    ensures ParseCharsString(NatToString(n)).Err?
  {
    DigitsSegment(NatToString(n));
  }

  /** A decimal value too wide for 32 bits is not read at all and stands for code point 0. */
  lemma TooWideReadsAsZero(n: nat)
    requires !IsU32(n)
    ensures ParseCharsString(NatToString(n)) == Ok({0})
  {
    var s := NatToString(n);
    DigitsSegment(s);
    assert SegmentChars(s) == Ok({0});
    assert [s][1..] == [];
    assert SegmentsChars([s]) == Ok({0} + {});
    assert {0} + {} == {0};
  }

  const DEFAULT_CHARS := "32-126"

  lemma RangesCharsOne(r: CharRange)
    ensures RangesChars([r]) == Span(r.lo, r.hi)
  {
    assert [r][1..] == [];
  }

  lemma DefaultRangeText()
    ensures RangeText(CharRange(32, 126)) == DEFAULT_CHARS
  {
    assert NatToString(32) == "32";
    assert NatToString(126) == "126";
  }

  /** Without a chars option the printable ASCII range is used. */
  lemma DefaultChars(s: string)
    requires s == DEFAULT_CHARS
    ensures ParseCharsString(s) == Ok(Span(32, 126))
  {
    var rs := [CharRange(32, 126)];
    DefaultRangeText();
    assert RangeTexts(rs) == [RangeText(rs[0])];
    assert RangesText(rs) == s;
    RangesCharsOne(rs[0]);
    CharsRoundTrip(rs);
  }

  // ---------------------------------------------------------------------------------------
  // Colours (`parseColor`)

  const COLOR_ERROR := "invalid color"

  /** One field of `^\s*\d{1,3}\s*,\s*\d{1,3}\s*,\s*\d{1,3}\s*$`: one to three digits between white space. */
  predicate ColorField(p: string)
  {
    var t := Trim(p);
    1 <= |t| <= 3 && AllDigits(t)
  }

  /** The regular expression the argument must match, field by field. */
  predicate ColorSyntax(s: string)
  {
    var parts := Split(s, ',');
    |parts| == 3 && ColorField(parts[0]) && ColorField(parts[1]) && ColorField(parts[2])
  }

  /** `std::stoul` of a field: leading white space skipped, the digits read. */
  function FieldValue(p: string): nat
    requires ColorField(p)
  {
    ValueIn(Trim(p), 10)
  }

  /** `parseColor` */
  function ParseColor(s: string): (r: Result<Color>)
    ensures r.Ok? ==> ColorSyntax(s)
    ensures r.Ok? ==> IsU8(r.value.r) && IsU8(r.value.g) && IsU8(r.value.b)
    ensures r.Err? ==> r.msg == COLOR_ERROR
  {
    if !ColorSyntax(s) then Err(COLOR_ERROR)
    else
      var parts := Split(s, ',');
      var (r, g, b) := (FieldValue(parts[0]), FieldValue(parts[1]), FieldValue(parts[2]));
      if r > 255 || g > 255 || b > 255 then Err(COLOR_ERROR) else Ok(Color(r, g, b))
  }

  /** Three numbers as typed, each field surrounded by the given white space. */
  function PaddedColorText(r: nat, g: nat, b: nat, lead: seq<string>, trail: seq<string>): string
    requires |lead| == 3 && |trail| == 3
  {
    Join([lead[0] + NatToString(r) + trail[0], lead[1] + NatToString(g) + trail[1],
          lead[2] + NatToString(b) + trail[2]], ',')
  }

  predicate SpacesOnly(pads: seq<string>)
  {
    forall k :: 0 <= k < |pads| ==> AllSpace(pads[k])
  }

  /** Digits between white space hold no comma. */
  lemma NoCommaPadded(lead: string, s: string, trail: string)
    requires AllSpace(lead) && AllSpace(trail) && AllDigits(s)
    ensures ',' !in lead + s + trail
  {
    var p := lead + s + trail;
    forall i | 0 <= i < |p|
      ensures p[i] != ','
    {
      if i < |lead| {
        assert p[i] == lead[i] && IsSpace(lead[i]);
      } else if i < |lead| + |s| {
        assert p[i] == s[i - |lead|] && IsDigit(s[i - |lead|]);
      } else {
        assert p[i] == trail[i - |lead| - |s|] && IsSpace(trail[i - |lead| - |s|]);
      }
    }
  }

  /** A padded field of at most three digits trims to its digits. */
  lemma FieldRead(lead: string, n: nat, trail: string)
    requires AllSpace(lead) && AllSpace(trail) && n <= 999
    ensures ColorField(lead + NatToString(n) + trail)
    ensures FieldValue(lead + NatToString(n) + trail) == n
    ensures ',' !in lead + NatToString(n) + trail
  {
    var s := NatToString(n);
    assert IsDigit(s[0]) && IsDigit(s[|s| - 1]);
    TrimPadded(lead, s, trail);
    FewDigits(n, 3);
    NoCommaPadded(lead, s, trail);
  }

  /** Padded fields of at most three digits satisfy the syntax and read as their numbers. */
  lemma PaddedFieldsRead(r: nat, g: nat, b: nat, lead: seq<string>, trail: seq<string>)
    requires r <= 999 && g <= 999 && b <= 999
    requires |lead| == 3 && |trail| == 3 && SpacesOnly(lead) && SpacesOnly(trail)
    ensures var parts := Split(PaddedColorText(r, g, b, lead, trail), ',');
      && ColorSyntax(PaddedColorText(r, g, b, lead, trail))
      && FieldValue(parts[0]) == r && FieldValue(parts[1]) == g && FieldValue(parts[2]) == b
  {
    FieldRead(lead[0], r, trail[0]);
    FieldRead(lead[1], g, trail[1]);
    FieldRead(lead[2], b, trail[2]);
    var parts := [lead[0] + NatToString(r) + trail[0], lead[1] + NatToString(g) + trail[1],
                  lead[2] + NatToString(b) + trail[2]];
    SplitJoin(parts, ',');
  }

  /** A colour typed with any white space around its fields reads back as itself. */
  lemma ColorRoundTrip(c: Color, lead: seq<string>, trail: seq<string>)
    requires IsU8(c.r) && IsU8(c.g) && IsU8(c.b)
    requires |lead| == 3 && |trail| == 3 && SpacesOnly(lead) && SpacesOnly(trail)
    ensures ParseColor(PaddedColorText(c.r, c.g, c.b, lead, trail)) == Ok(c)
  {
    PaddedFieldsRead(c.r, c.g, c.b, lead, trail);
  }

  /** A field of up to three digits but above 255 throws. */
  lemma ColorFieldTooLarge(r: nat, g: nat, b: nat, lead: seq<string>, trail: seq<string>)
    requires r <= 999 && g <= 999 && b <= 999 && (r > 255 || g > 255 || b > 255)
    requires |lead| == 3 && |trail| == 3 && SpacesOnly(lead) && SpacesOnly(trail)
    ensures ParseColor(PaddedColorText(r, g, b, lead, trail)) == Err(COLOR_ERROR)
  {
    PaddedFieldsRead(r, g, b, lead, trail);
  }

  const DEFAULT_COLOR := "255,255,255"

  /** The default foreground is white. */
  lemma DefaultColor()
    ensures ParseColor(DEFAULT_COLOR) == Ok(Color(255, 255, 255))
  {
    WhiteText();
    ColorRoundTrip(Color(255, 255, 255), ["", "", ""], ["", "", ""]);
  }

  /** The default colour is white typed without white space. */
  lemma WhiteText()
    ensures PaddedColorText(255, 255, 255, ["", "", ""], ["", "", ""]) == DEFAULT_COLOR
  {
    var field := NatToString(255);
    assert field == "255";
    assert "" + field + "" == field;
    JoinThree(field, field, field, ',');
  }

  lemma JoinThree(a: string, b: string, c: string, sep: char)
    ensures Join([a, b, c], sep) == a + [sep] + b + [sep] + c
  {
    assert [a, b, c][1..] == [b, c];
    assert [b, c][1..] == [c];
    assert Join([c], sep) == c;
    assert Join([b, c], sep) == b + [sep] + c;
    assert Join([a, b, c], sep) == a + [sep] + (b + [sep] + c);
  }

  // ---------------------------------------------------------------------------------------
  // Texture sizes (`parseTextureSize`)

  const TEXTURE_SIZE_ERROR := "invalid texture size argument"
  const MAX_TEXTURE_SIDE: nat := 65536

  /** `^[1-9]\d{0,9}$`: a positive number of at most ten digits without a leading zero. */
  predicate SideSyntax(t: string)
  {
    1 <= |t| <= 10 && AllDigits(t) && t[0] != '0'
  }

  /** The two sides of a `WxH` piece, as `std::stoul` reads them into an `unsigned long`. */
  function Sides(p: string): (r: Result<(nat, nat)>)
    ensures r.Ok? ==> r.value.0 >= 1 && r.value.1 >= 1
  {
    var ss := Split(p, 'x');
    if |ss| != 2 || !SideSyntax(ss[0]) || !SideSyntax(ss[1]) then Err(TEXTURE_SIZE_ERROR)
    else
      LeadingDigitPositive(ss[0]);
      LeadingDigitPositive(ss[1]);
      Ok((ValueIn(ss[0], 10), ValueIn(ss[1], 10)))
  }

  predicate ValidTextureSize(z: Size)
  {
    1 <= z.w <= MAX_TEXTURE_SIDE && 1 <= z.h <= MAX_TEXTURE_SIDE
  }

  /**
   One piece as written: the sides are stored into the 32-bit fields of `Config::Size` before
   the bound is checked, so a side that wraps to a small value passes.
   */
  function SizeAsWritten(p: string): (r: Result<Size>)
    ensures r.Ok? ==> r.value.w <= MAX_TEXTURE_SIDE && r.value.h <= MAX_TEXTURE_SIDE
  {
    var (w, h) :- Sides(p);
    var size := Size(ToU32(w), ToU32(h));
    if size.w > MAX_TEXTURE_SIDE || size.h > MAX_TEXTURE_SIDE then Err(TEXTURE_SIZE_ERROR) else Ok(size)
  }

  /** One piece with the bound checked on the value read. */
  function SizeChecked(p: string): (r: Result<Size>)
    ensures r.Ok? ==> ValidTextureSize(r.value)
  {
    var (w, h) :- Sides(p);
    if w > MAX_TEXTURE_SIDE || h > MAX_TEXTURE_SIDE then Err(TEXTURE_SIZE_ERROR) else Ok(Size(w, h))
  }

  /** Every piece in order; the first bad one throws. */
  function SizeList(pieces: seq<string>, size: string -> Result<Size>): (r: Result<seq<Size>>)
    ensures r.Ok? ==> |r.value| == |pieces|
    ensures r.Ok? ==> forall k :: 0 <= k < |pieces| ==> size(pieces[k]) == Ok(r.value[k])
    ensures (forall k :: 0 <= k < |pieces| ==> size(pieces[k]).Ok?) ==> r.Ok?
  {
    if pieces == [] then Ok([])
    else
      var first :- size(pieces[0]);
      var rest :- SizeList(pieces[1..], size);
      assert forall k :: 1 <= k < |pieces| ==> pieces[k] == pieces[1..][k - 1];
      Ok([first] + rest)
  }

  lemma SizeListOne(p: string, size: string -> Result<Size>)
    requires size(p).Ok?
    ensures SizeList([p], size) == Ok([size(p).value])
  {
    assert [p][1..] == [];
    assert SizeList([], size) == Ok([]);
    assert [size(p).value] + [] == [size(p).value];
  }

  function TextureSizesWith(s: string, size: string -> Result<Size>): (r: Result<seq<Size>>)
    ensures r.Ok? ==> |r.value| >= 1
  {
    var sizes :- SizeList(Split(s, ','), size);
    if sizes == [] then Err(TEXTURE_SIZE_ERROR) else Ok(sizes)
  }

  /** `parseTextureSize` as written. */
  function ParseTextureSizeAsWritten(s: string): (r: Result<seq<Size>>)
    ensures r.Ok? ==> |r.value| >= 1
    ensures r.Ok? ==> forall k :: 0 <= k < |r.value| ==> r.value[k].w <= MAX_TEXTURE_SIDE && r.value[k].h <= MAX_TEXTURE_SIDE
  {
    TextureSizesWith(s, SizeAsWritten)
  }

  /** `parseTextureSize` with every side between 1 and 65536, as the bound check intends. */
  function ParseTextureSize(s: string): (r: Result<seq<Size>>)
    ensures r.Ok? ==> |r.value| >= 1
    ensures r.Ok? ==> forall k :: 0 <= k < |r.value| ==> ValidTextureSize(r.value[k])
  {
    TextureSizesWith(s, SizeChecked)
  }

  function SizeText(z: Size): string
  {
    NatToString(z.w) + "x" + NatToString(z.h)
  }

  function SizeTexts(sizes: seq<Size>): (ts: seq<string>)
    ensures |ts| == |sizes| && forall k :: 0 <= k < |sizes| ==> ts[k] == SizeText(sizes[k])
  {
    seq(|sizes|, k requires 0 <= k < |sizes| => SizeText(sizes[k]))
  }

  /** A size list as typed. */
  function SizesText(sizes: seq<Size>): string
  {
    Join(SizeTexts(sizes), ',')
  }

  /** A typed side of at most ten digits satisfies the side syntax. */
  lemma SideText(n: nat)
    requires 1 <= n < TenTo(10)
    ensures SideSyntax(NatToString(n))
    ensures 'x' !in NatToString(n) && ',' !in NatToString(n)
  {
    var s := NatToString(n);
    FewDigits(n, 10);
    if |s| == 1 {
      assert ValueIn(s, 10) == DigitValue(s[0]);
    }
    NoSignInDigits(s, 'x');
    NoSignInDigits(s, ',');
  }

  /** The sides of a typed piece. */
  lemma SidesRead(w: nat, h: nat)
    requires 1 <= w < TenTo(10) && 1 <= h < TenTo(10)
    ensures Sides(NatToString(w) + "x" + NatToString(h)) == Ok((w, h))
    ensures ',' !in NatToString(w) + "x" + NatToString(h)
  {
    var a := NatToString(w);
    var b := NatToString(h);
    SideText(w);
    SideText(h);
    JoinTwo(a, b, 'x');
    SplitJoin([a, b], 'x');
    SidesOf(a + "x" + b, a, b);
    NoCommaAround(a, b, 'x');
  }

  lemma JoinTwo(a: string, b: string, sep: char)
    ensures Join([a, b], sep) == a + [sep] + b
  {
    assert [a, b][1..] == [b];
  }

  /** `Sides` of a piece that splits into two well-formed sides. */
  lemma SidesOf(p: string, a: string, b: string)
    requires Split(p, 'x') == [a, b] && SideSyntax(a) && SideSyntax(b)
    ensures Sides(p) == Ok((ValueIn(a, 10), ValueIn(b, 10)))
  {
  }

  lemma NoCommaAround(a: string, b: string, sep: char)
    requires ',' !in a && ',' !in b && sep != ','
    ensures ',' !in a + [sep] + b
  {
    var p := a + [sep] + b;
    forall i | 0 <= i < |p|
      ensures p[i] != ','
    {
      if i < |a| {
        assert p[i] == a[i];
      } else if i > |a| {
        assert p[i] == b[i - |a| - 1];
      }
    }
  }

  lemma MaxSideDigits()
    ensures MAX_TEXTURE_SIDE < TenTo(10)
  {
    assert TenTo(5) == 100000;
  }

  /** Typed valid sizes read back in order. */
  lemma TextureSizeRoundTrip(sizes: seq<Size>)
    requires |sizes| >= 1 && forall k :: 0 <= k < |sizes| ==> ValidTextureSize(sizes[k])
    ensures ParseTextureSize(SizesText(sizes)) == Ok(sizes)
  {
    var ts := SizeTexts(sizes);
    MaxSideDigits();
    forall k | 0 <= k < |ts|
      ensures SizeChecked(ts[k]) == Ok(sizes[k]) && ',' !in ts[k]
    {
      SidesRead(sizes[k].w, sizes[k].h);
    }
    SplitJoin(ts, ',');
    var r := SizeList(ts, SizeChecked);
    assert r.Ok?;
    assert forall k :: 0 <= k < |sizes| ==> r.value[k] == sizes[k];
    assert r.value == sizes;
  }

  /**
   As written, a side that wraps past 32 bits to at most 65536 is accepted with its wrapped
   value, while the checked parser rejects it.
   */
  lemma WrappedSideAccepted(w: nat, h: nat)
    requires MAX_TEXTURE_SIDE < w < TenTo(10) && ToU32(w) <= MAX_TEXTURE_SIDE
    requires 1 <= h <= MAX_TEXTURE_SIDE
    ensures ParseTextureSizeAsWritten(SizeText(Size(w, h))) == Ok([Size(ToU32(w), h)])
    ensures ParseTextureSize(SizeText(Size(w, h))).Err?
  {
    MaxSideDigits();
    var p := SizeText(Size(w, h));
    SidesRead(w, h);
    SplitNoSep(p, ',');
    assert ToU32(h) == h;
    assert SizeAsWritten(p) == Ok(Size(ToU32(w), h));
    SizeListOne(p, SizeAsWritten);
    assert SizeChecked(p).Err?;
  }

  /** `4294967296x64` is such an argument: it gives a texture of width 0. */
  lemma ZeroWidthTexture()
    ensures ParseTextureSizeAsWritten(SizeText(Size(TWO_32, 64))) == Ok([Size(0, 64)])
    ensures ParseTextureSize(SizeText(Size(TWO_32, 64))).Err?
  {
    assert TenTo(10) == 10000000000;
    WrappedSideAccepted(TWO_32, 64);
  }

  /** The seventeen sizes tried when no texture size option is given. */
  const DEFAULT_TEXTURE_SIZES: seq<Size> := [
    Size(32, 32), Size(64, 32), Size(64, 64), Size(128, 64), Size(128, 128), Size(256, 128),
    Size(256, 256), Size(512, 256), Size(512, 512), Size(1024, 512), Size(1024, 1024),
    Size(2048, 1024), Size(2048, 2048), Size(4096, 2048), Size(4096, 4096), Size(8192, 4096),
    Size(8192, 8192)]

  /** The defaults double the width and then the height, from 32x32 to 8192x8192. */
  lemma DefaultTextureSizesDouble()
    ensures |DEFAULT_TEXTURE_SIZES| == 17
    ensures forall k :: 0 <= k < 17 ==>
      DEFAULT_TEXTURE_SIZES[k] == Size(32 * Pow2((k + 1) / 2), 32 * Pow2(k / 2))
    ensures forall k :: 0 <= k < 17 ==> ValidTextureSize(DEFAULT_TEXTURE_SIZES[k])
  {
    forall k | 0 <= k < 17
      ensures DEFAULT_TEXTURE_SIZES[k] == Size(32 * Pow2((k + 1) / 2), 32 * Pow2(k / 2))
      ensures ValidTextureSize(DEFAULT_TEXTURE_SIZES[k])
    {
      DefaultSizeAt(k);
    }
  }

  lemma DefaultSizeAt(k: nat)
    requires k < 17
    ensures DEFAULT_TEXTURE_SIZES[k] == Size(32 * Pow2((k + 1) / 2), 32 * Pow2(k / 2))
    ensures ValidTextureSize(DEFAULT_TEXTURE_SIZES[k])
  {
    var ps := [1, 2, 4, 8, 16, 32, 64, 128, 256];
    SmallPowers();
    assert Pow2((k + 1) / 2) == ps[(k + 1) / 2] && Pow2(k / 2) == ps[k / 2];
  }

  lemma SmallPowers()
    ensures Pow2(0) == 1 && Pow2(1) == 2 && Pow2(2) == 4 && Pow2(3) == 8 && Pow2(4) == 16
    ensures Pow2(5) == 32 && Pow2(6) == 64 && Pow2(7) == 128 && Pow2(8) == 256
  {
    assert Pow2(2) == 4;
    assert Pow2(4) == 16;
    assert Pow2(6) == 64;
  }

  // ---------------------------------------------------------------------------------------
  // Keyword options

  function DataFormatName(d: DataFormat): string
  {
    match d
    case Text => "txt"
    case Xml => "xml"
    case Bin => "bin"
    case Json => "json"
    case Cbor => "cbor"
  }

  /** `--data-format`, compared after `tolower`. */
  function DataFormatOf(s: string): (r: Result<DataFormat>)
    ensures r.Ok? ==> Lower(s) == DataFormatName(r.value)
    ensures forall d :: Lower(s) == DataFormatName(d) ==> r == Ok(d)
    ensures r.Err? ==> r.msg == "unknown --data-format value"
  {
    var k := Lower(s);
    if k == "txt" then Ok(Text)
    else if k == "xml" then Ok(Xml)
    else if k == "bin" then Ok(Bin)
    else if k == "json" then Ok(Json)
    else if k == "cbor" then Ok(Cbor)
    else Err("unknown --data-format value")
  }

  function KerningPairsName(m: KerningPairs): string
  {
    match m
    case Disabled => "disabled"
    case Basic => "basic"
    case Regular => "regular"
    case Extended => "extended"
  }

  /** `--kerning-pairs`, compared after `tolower`. */
  function KerningPairsOf(s: string): (r: Result<KerningPairs>)
    ensures r.Ok? ==> Lower(s) == KerningPairsName(r.value)
    ensures forall m :: Lower(s) == KerningPairsName(m) ==> r == Ok(m)
    ensures r.Err? ==> r.msg == "unknown --kerning-pairs value"
  {
    var k := Lower(s);
    if k == "disabled" then Ok(Disabled)
    else if k == "basic" then Ok(Basic)
    else if k == "regular" then Ok(Regular)
    else if k == "extended" then Ok(Extended)
    else Err("unknown --kerning-pairs value")
  }

  function SuffixName(x: TextureNameSuffix): string
  {
    match x
    case IndexAligned => "index_aligned"
    case Index => "index"
    case NoSuffix => "none"
  }

  /** `--texture-name-suffix`, compared exactly as typed. */
  function TextureNameSuffixOf(s: string): (r: Result<TextureNameSuffix>)
    ensures r.Ok? ==> s == SuffixName(r.value)
    ensures forall x :: s == SuffixName(x) ==> r == Ok(x)
    ensures r.Err? ==> r.msg == "unknown --texture-name-suffix value"
  {
    if s == "index_aligned" then Ok(IndexAligned)
    else if s == "index" then Ok(Index)
    else if s == "none" then Ok(NoSuffix)
    else Err("unknown --texture-name-suffix value")
  }

  // ---------------------------------------------------------------------------------------
  // Defaults and checks of `parseCommandLine`

  /**
   The options as cxxopts hands them over, `None` for an option not given. `charsFiles` stands
   for the code points read from every `--chars-file`; reading them is not modelled.
   */
  datatype CommandLine = CommandLine(
    help: bool,
    fontFile: Option<string>,
    output: Option<string>,
    chars: Option<string>,
    charsFiles: Option<set<nat>>,
    color: Option<string>,
    backgroundColor: Option<string>,
    fontSize: Option<nat>,
    padding: Padding,
    spacing: Spacing,
    dataFormat: Option<string>,
    kerningPairs: Option<string>,
    textureNameSuffix: Option<string>,
    textureSize: Option<string>,
    alignHor: Option<nat>,
    alignVer: Option<nat>,
    maxTextureCount: Option<nat>,
    extraInfo: bool,
    monochrome: bool,
    cropWidth: bool,
    cropHeight: bool)

  /** The `Config` members that keep their initial values when their option is absent. */
  datatype Unset = Unset(alignment: Alignment, maxTextureCount: nat, backgroundColor: Color)

  function OrElse<T>(o: Option<T>, default: T): (r: T)
    ensures o.Some? ==> r == o.value
    ensures o.None? ==> r == default
  {
    if o.Some? then o.value else default
  }

  /** The text `parseCharsString` receives: "32-126" only when neither chars option is given. */
  function CharsArgument(cl: CommandLine): string
  {
    if cl.chars.Some? then cl.chars.value
    else if cl.charsFiles.None? then DEFAULT_CHARS
    else ""
  }

  /** The code points: the typed ones, then those of the files. */
  function ReadChars(cl: CommandLine): (r: Result<set<nat>>)
    ensures r.Ok? ==> ParseCharsString(CharsArgument(cl)).Ok?
    ensures r.Ok? ==> r.value == ParseCharsString(CharsArgument(cl)).value + OrElse(cl.charsFiles, {})
  {
    var typed :- ParseCharsString(CharsArgument(cl));
    Ok(typed + OrElse(cl.charsFiles, {}))
  }

  /** The foreground colour, white by default, and the background colour when one is given. */
  function ReadColors(cl: CommandLine, unset: Unset): (r: Result<(Color, Color)>)
    ensures r.Ok? ==> IsU8(r.value.0.r) && IsU8(r.value.0.g) && IsU8(r.value.0.b)
    ensures r.Ok? && cl.backgroundColor.None? ==> r.value.1 == unset.backgroundColor
    ensures r.Ok? && cl.backgroundColor.Some? ==> ParseColor(cl.backgroundColor.value) == Ok(r.value.1)
  {
    var color :- ParseColor(OrElse(cl.color, DEFAULT_COLOR));
    var background :- if cl.backgroundColor.Some? then ParseColor(cl.backgroundColor.value)
                      else Ok(unset.backgroundColor);
    Ok((color, background))
  }

  /** The three keyword options with their defaults `txt`, `disabled` and `index_aligned`. */
  function ReadKeywords(cl: CommandLine): (r: Result<(DataFormat, KerningPairs, TextureNameSuffix)>)
    ensures r.Ok? ==> DataFormatOf(OrElse(cl.dataFormat, "txt")) == Ok(r.value.0)
    ensures r.Ok? ==> KerningPairsOf(OrElse(cl.kerningPairs, "disabled")) == Ok(r.value.1)
    ensures r.Ok? ==> TextureNameSuffixOf(OrElse(cl.textureNameSuffix, "index_aligned")) == Ok(r.value.2)
  {
    var format :- DataFormatOf(OrElse(cl.dataFormat, "txt"));
    var kerning :- KerningPairsOf(OrElse(cl.kerningPairs, "disabled"));
    var suffix :- TextureNameSuffixOf(OrElse(cl.textureNameSuffix, "index_aligned"));
    Ok((format, kerning, suffix))
  }

  /** The texture sizes to try: the typed list, or the seventeen defaults. */
  function ReadTextureSizes(cl: CommandLine): (r: Result<seq<Size>>)
    ensures r.Ok? ==> |r.value| >= 1
    ensures r.Ok? ==> forall k :: 0 <= k < |r.value| ==> ValidTextureSize(r.value[k])
    ensures cl.textureSize.None? ==> r == Ok(DEFAULT_TEXTURE_SIZES)
  {
    if cl.textureSize.Some? then ParseTextureSize(cl.textureSize.value)
    else
      DefaultTextureSizesDouble();
      Ok(DEFAULT_TEXTURE_SIZES)
  }

  /** The alignment, given or left at its initial value; zero is rejected. */
  function ReadAlignment(cl: CommandLine, unset: Unset): (r: Result<Alignment>)
    ensures r.Ok? <==> OrElse(cl.alignHor, unset.alignment.hor) != 0 && OrElse(cl.alignVer, unset.alignment.ver) != 0
    ensures r.Ok? ==> r.value == Alignment(OrElse(cl.alignHor, unset.alignment.hor), OrElse(cl.alignVer, unset.alignment.ver))
  {
    var alignment := Alignment(OrElse(cl.alignHor, unset.alignment.hor), OrElse(cl.alignVer, unset.alignment.ver));
    if alignment.hor == 0 then Err("invalid --align-horiz")
    else if alignment.ver == 0 then Err("invalid --align-vert")
    else Ok(alignment)
  }

  /** The settings, in the order the program reads the options and throws on the first bad one. */
  function Configure(cl: CommandLine, unset: Unset): (r: Result<Config>)
    ensures r.Ok? ==> !cl.help && cl.fontFile.Some? && cl.output.Some? && r.value.output == cl.output.value
    ensures r.Ok? ==> r.value.alignment.hor >= 1 && r.value.alignment.ver >= 1
    ensures r.Ok? ==> |r.value.textureSizes| >= 1
    ensures r.Ok? ==> forall k :: 0 <= k < |r.value.textureSizes| ==> ValidTextureSize(r.value.textureSizes[k])
    ensures r.Ok? ==> r.value.useMaxTextureCount == cl.maxTextureCount.Some?
    ensures r.Ok? ==> r.value.backgroundTransparent == cl.backgroundColor.None?
    ensures r.Ok? ==> IsU8(r.value.color.r) && IsU8(r.value.color.g) && IsU8(r.value.color.b)
    ensures r.Ok? ==> ReadChars(cl) == Ok(r.value.chars)
    ensures r.Ok? ==> ReadAlignment(cl, unset) == Ok(r.value.alignment)
  {
    if cl.help then Err("help requested")
    else if cl.fontFile.None? then Err("--font-file required")
    else if cl.output.None? then Err("--output required")
    else
      var chars :- ReadChars(cl);
      var (color, background) :- ReadColors(cl, unset);
      var (format, kerning, suffix) :- ReadKeywords(cl);
      var sizes :- ReadTextureSizes(cl);
      var alignment :- ReadAlignment(cl, unset);
      Ok(Config(
        fontSize := OrElse(cl.fontSize, 32),
        padding := cl.padding,
        spacing := cl.spacing,
        alignment := alignment,
        textureSizes := sizes,
        cropWidth := cl.cropWidth,
        cropHeight := cl.cropHeight,
        output := cl.output.value,
        dataFormat := format,
        kerningPairs := kerning,
        textureNameSuffix := suffix,
        monochrome := cl.monochrome,
        extraInfo := cl.extraInfo,
        useMaxTextureCount := cl.maxTextureCount.Some?,
        maxTextureCount := OrElse(cl.maxTextureCount, unset.maxTextureCount),
        chars := chars,
        color := color,
        backgroundTransparent := cl.backgroundColor.None?,
        backgroundColor := background))
  }

  /** A command line that gives only the two required options. */
  function Minimal(fontFile: string, output: string): CommandLine
  {
    CommandLine(false, Some(fontFile), Some(output), None, None, None, None, None, Padding(0, 0, 0, 0),
                Spacing(0, 0), None, None, None, None, None, None, None, false, false, false, false)
  }

  lemma LowerUnchanged(s: string)
    requires forall i :: 0 <= i < |s| ==> !('A' <= s[i] <= 'Z')
    ensures Lower(s) == s
  {
  }

  /** The keyword defaults name the text format, no kerning and aligned indices. */
  lemma DefaultKeywords(cl: CommandLine)
    requires cl.dataFormat.None? && cl.kerningPairs.None? && cl.textureNameSuffix.None?
    ensures ReadKeywords(cl) == Ok((Text, Disabled, IndexAligned))
  {
    LowerUnchanged("txt");
    LowerUnchanged("disabled");
  }

  /** Without either chars option the code points are U+0020..U+007E. */
  lemma DefaultReadChars(cl: CommandLine)
    requires cl.chars.None? && cl.charsFiles.None?
    ensures ReadChars(cl) == Ok(Span(32, 126))
  {
    DefaultChars(CharsArgument(cl));
    assert Span(32, 126) + {} == Span(32, 126);
  }

  /** The settings when every stage succeeds. */
  lemma ConfigureOf(cl: CommandLine, unset: Unset, chars: set<nat>, colors: (Color, Color),
                    keywords: (DataFormat, KerningPairs, TextureNameSuffix), sizes: seq<Size>)
    requires !cl.help && cl.fontFile.Some? && cl.output.Some?
    requires ReadChars(cl) == Ok(chars) && ReadColors(cl, unset) == Ok(colors)
    requires ReadKeywords(cl) == Ok(keywords) && ReadTextureSizes(cl) == Ok(sizes)
    requires ReadAlignment(cl, unset).Ok?
    ensures Configure(cl, unset).Ok?
    ensures var c := Configure(cl, unset).value;
      && c.chars == chars && c.color == colors.0 && c.backgroundColor == colors.1
      && c.dataFormat == keywords.0 && c.kerningPairs == keywords.1 && c.textureNameSuffix == keywords.2
      && c.textureSizes == sizes && c.fontSize == OrElse(cl.fontSize, 32)
  {
  }

  /** With only the required options, every default applies. */
  lemma ConfigureDefaults(fontFile: string, output: string, unset: Unset)
    requires unset.alignment.hor >= 1 && unset.alignment.ver >= 1
    ensures var r := Configure(Minimal(fontFile, output), unset);
      && r.Ok?
      && r.value.chars == Span(32, 126)
      && r.value.color == Color(255, 255, 255)
      && r.value.backgroundTransparent
      && r.value.dataFormat == Text && r.value.kerningPairs == Disabled
      && r.value.textureNameSuffix == IndexAligned
      && r.value.textureSizes == DEFAULT_TEXTURE_SIZES
      && r.value.fontSize == 32 && !r.value.useMaxTextureCount
  {
    DefaultsApply(Minimal(fontFile, output), unset);
  }

  /** A command line that names the font and the output and leaves every other option out. */
  predicate OnlyRequired(cl: CommandLine)
  {
    && !cl.help && cl.fontFile.Some? && cl.output.Some?
    && cl.chars.None? && cl.charsFiles.None? && cl.color.None? && cl.backgroundColor.None?
    && cl.fontSize.None? && cl.dataFormat.None? && cl.kerningPairs.None? && cl.textureNameSuffix.None?
    && cl.textureSize.None? && cl.alignHor.None? && cl.alignVer.None? && cl.maxTextureCount.None?
  }

  lemma DefaultsApply(cl: CommandLine, unset: Unset)
    requires OnlyRequired(cl) && unset.alignment.hor >= 1 && unset.alignment.ver >= 1
    ensures Configure(cl, unset).Ok?
    ensures Configure(cl, unset).value.chars == Span(32, 126)
    ensures Configure(cl, unset).value.color == Color(255, 255, 255)
    ensures Configure(cl, unset).value.backgroundTransparent
    ensures Configure(cl, unset).value.dataFormat == Text
    ensures Configure(cl, unset).value.kerningPairs == Disabled
    ensures Configure(cl, unset).value.textureNameSuffix == IndexAligned
    ensures Configure(cl, unset).value.textureSizes == DEFAULT_TEXTURE_SIZES
    ensures Configure(cl, unset).value.fontSize == 32
    ensures !Configure(cl, unset).value.useMaxTextureCount
  {
    DefaultReadChars(cl);
    DefaultColors(cl, unset);
    DefaultKeywords(cl);
    assert ReadTextureSizes(cl) == Ok(DEFAULT_TEXTURE_SIZES);
    assert ReadAlignment(cl, unset).Ok?;
    ConfigureOf(cl, unset, Span(32, 126), (Color(255, 255, 255), unset.backgroundColor),
                (Text, Disabled, IndexAligned), DEFAULT_TEXTURE_SIZES);
  }

  /** Without colour options the foreground is white and the background keeps its initial value. */
  lemma DefaultColors(cl: CommandLine, unset: Unset)
    requires cl.color.None? && cl.backgroundColor.None?
    ensures ReadColors(cl, unset) == Ok((Color(255, 255, 255), unset.backgroundColor))
  {
    DefaultColor();
  }
}
