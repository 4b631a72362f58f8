/**
 `FontInfo::writeToBinFile`: the AngelCode BMFont binary format, version 3.

 The file is the magic `B`, `M`, `F`, 3 followed by tagged blocks 1 (info), 2 (common),
 3 (pages), 4 (chars) and, only when there are kerning pairs, 5 (kerning pairs). Each block
 is its tag byte, its payload size as a little-endian `int32_t`, then the payload: the fields
 of a `#pragma pack(1)` struct in declared order, little-endian, followed by NUL-terminated
 strings where the format has them.

 `Decode` reads such a file back; `EncodeDecode` proves that it recovers everything the
 format can hold.
 */
module BinCodec {
  import opened Wrappers
  import opened MachineInts
  import opened FontInfo
  import opened Seqs

  type Byte = b: int | 0 <= b < 256

  function Pow256(n: nat): (p: nat)
    ensures p >= 1
  {
    if n == 0 then 1 else 256 * Pow256(n - 1)
  }

  lemma Pow256Values()
    ensures Pow256(1) == TWO_8 && Pow256(2) == TWO_16 && Pow256(4) == TWO_32
  {
    assert Pow256(1) == 256;
    assert Pow256(2) == 256 * 256;
    assert Pow256(3) == 256 * 256 * 256;
  }

  lemma Pow256Even(n: nat)
    requires n >= 1
    ensures Pow256(n) > 1 && Pow256(n) % 2 == 0
  {
    assert Pow256(n) == 256 * Pow256(n - 1);
  }

  /** The `n` little-endian bytes of `v`. */
  function LE(v: nat, n: nat): (bs: seq<Byte>)
    ensures |bs| == n
  {
    if n == 0 then [] else [v % 256] + LE(v / 256, n - 1)
  }

  /** The number stored little-endian in `bs`. */
  function FromLE(bs: seq<Byte>): (v: nat)
    ensures v < Pow256(|bs|)
  {
    if bs == [] then 0 else bs[0] + 256 * FromLE(bs[1..])
  }

  lemma {:induction false} FromLEOfLE(v: nat, n: nat)
    requires v < Pow256(n)
    ensures FromLE(LE(v, n)) == v
  {
    if n > 0 {
      FromLEOfLE(v / 256, n - 1);
      assert LE(v, n)[1..] == LE(v / 256, n - 1);
    }
  }

  // ---------------------------------------------------------------------------------------
  // Packed fields

  /** The member types of the packed structs. */
  datatype Kind = U8 | U16 | U32 | I16 | I32

  function Width(k: Kind): nat
  {
    match k
    case U8 => 1
    case U16 | I16 => 2
    case U32 | I32 => 4
  }

  function Modulus(k: Kind): int
  {
    match k
    case U8 => TWO_8
    case U16 | I16 => TWO_16
    case U32 | I32 => TWO_32
  }

  lemma ModulusIsPow(k: Kind)
    ensures Modulus(k) == Pow256(Width(k)) && Modulus(k) % 2 == 0 && Modulus(k) > 1
  {
    Pow256Values();
  }

  predicate IsSigned(k: Kind)
  {
    k == I16 || k == I32
  }

  /** One member of a packed struct and the value assigned to it. */
  datatype Field = Field(kind: Kind, value: int)

  /** The member's bytes: the assignment wraps the value to the member's width. */
  function FieldBytes(f: Field): (bs: seq<Byte>)
    ensures |bs| == Width(f.kind)
  {
    LE(Wrap(f.value, Modulus(f.kind)), Width(f.kind))
  }

  /** The struct's bytes: its members back to back, without padding. */
  function Serialize(fs: seq<Field>): (bs: seq<Byte>)
  {
    if fs == [] then [] else FieldBytes(fs[0]) + Serialize(fs[1..])
  }

  /** The struct with the given member types and assigned values. */
  function Fields(ks: seq<Kind>, vs: seq<int>): (fs: seq<Field>)
    requires |ks| == |vs|
    ensures |fs| == |ks| && forall i :: 0 <= i < |ks| ==> fs[i] == Field(ks[i], vs[i])
  {
    seq(|ks|, i requires 0 <= i < |ks| => Field(ks[i], vs[i]))
  }

  /** The value the member holds after the assignment. */
  function Stored(f: Field): (v: int)
    ensures InRange(f) ==> v == f.value
  {
    var m := Modulus(f.kind);
    ModulusIsPow(f.kind);
    if IsSigned(f.kind) then
      WrapSigned(f.value, m);
      Signed(Wrap(f.value, m), m)
    else Wrap(f.value, m)
  }

  /** The value fits the member's type. */
  predicate InRange(f: Field)
  {
    match f.kind
    case U8 => IsU8(f.value)
    case U16 => IsU16(f.value)
    case U32 => IsU32(f.value)
    case I16 => IsI16(f.value)
    case I32 => IsI32(f.value)
  }

  function StoredValues(fs: seq<Field>): (vs: seq<int>)
    ensures |vs| == |fs| && forall i :: 0 <= i < |fs| ==> vs[i] == Stored(fs[i])
  {
    seq(|fs|, i requires 0 <= i < |fs| => Stored(fs[i]))
  }

  /** Reads one member from exactly its bytes. */
  function ReadValue(k: Kind, bs: seq<Byte>): int
    requires |bs| == Width(k)
  {
    var u := FromLE(bs);
    ModulusIsPow(k);
    if IsSigned(k) then Signed(u, Modulus(k)) else u
  }

  /** Reads the members of the given types from the front of `bs`. */
  function ReadFields(bs: seq<Byte>, ks: seq<Kind>): (r: Option<(seq<int>, seq<Byte>)>)
    ensures r.Some? ==> |r.value.0| == |ks|
  {
    if ks == [] then Some(([], bs))
    else if |bs| < Width(ks[0]) then None
    else
      var w := Width(ks[0]);
      match ReadFields(bs[w..], ks[1..])
      case None => None
      case Some(p) => Some(([ReadValue(ks[0], bs[..w])] + p.0, p.1))
  }

  /** A signed value in range is recovered from its two's-complement bit pattern. */
  lemma WrapSigned(v: int, m: int)
    requires m > 1 && m % 2 == 0
    ensures -(m / 2) <= v < m / 2 ==> Signed(Wrap(v, m), m) == v
  {
    if -(m / 2) <= v < 0 {
      DivModUnique(v, m, -1, v + m);
    }
  }

  lemma ReadValueOfField(f: Field)
    ensures ReadValue(f.kind, FieldBytes(f)) == Stored(f)
  {
    ModulusIsPow(f.kind);
    FromLEOfLE(Wrap(f.value, Modulus(f.kind)), Width(f.kind));
  }

  /** Reading the members back gives the values they hold, and leaves what follows them. */
  lemma {:induction false} ReadSerialize(fs: seq<Field>, rest: seq<Byte>)
    ensures ReadFields(Serialize(fs) + rest, KindsOf(fs)) == Some((StoredValues(fs), rest))
  {
    var ks := KindsOf(fs);
    if fs != [] {
      var f := fs[0];
      var w := Width(f.kind);
      var bs := Serialize(fs) + rest;
      assert bs == FieldBytes(f) + (Serialize(fs[1..]) + rest);
      assert bs[..w] == FieldBytes(f);
      assert bs[w..] == Serialize(fs[1..]) + rest;
      assert ks[1..] == KindsOf(fs[1..]);
      ReadSerialize(fs[1..], rest);
      ReadValueOfField(f);
      assert ReadFields(bs, ks) == Some(([Stored(f)] + StoredValues(fs[1..]), rest));
      assert StoredValues(fs) == [Stored(f)] + StoredValues(fs[1..]);
    } else {
      assert Serialize(fs) + rest == rest;
      assert ks == [] && StoredValues(fs) == [];
    }
  }

  function KindsOf(fs: seq<Field>): (ks: seq<Kind>)
    ensures |ks| == |fs| && forall i :: 0 <= i < |fs| ==> ks[i] == fs[i].kind
  {
    seq(|fs|, i requires 0 <= i < |fs| => fs[i].kind)
  }

  /** A struct of the given member types reads back as what its members hold. */
  lemma ReadStruct(ks: seq<Kind>, vs: seq<int>, rest: seq<Byte>)
    requires |ks| == |vs|
    ensures ReadFields(Serialize(Fields(ks, vs)) + rest, ks) == Some((StoredValues(Fields(ks, vs)), rest))
  {
    assert KindsOf(Fields(ks, vs)) == ks;
    ReadSerialize(Fields(ks, vs), rest);
  }

  // ---------------------------------------------------------------------------------------
  // Strings

  /** A `std::string`'s bytes. */
  function Bytes(s: string): (bs: seq<Byte>)
    ensures |bs| == |s|
  {
    seq(|s|, i requires 0 <= i < |s| => (s[i] as int) % 256)
  }

  function Text(bs: seq<Byte>): (s: string)
    ensures |s| == |bs|
  {
    seq(|bs|, i requires 0 <= i < |bs| => bs[i] as char)
  }

  lemma TextBytes(s: string)
    requires IsByteString(s)
    ensures Text(Bytes(s)) == s
  {
  }

  // ---------------------------------------------------------------------------------------
  // Encoder

  /** The bit fields `smooth`, `unicode`, `italic`, `bold` (bits 0 to 3) of the info block. */
  function InfoFlags(i: Info): int
  {
    Bit(i.smooth) + 2 * Bit(i.unicode) + 4 * Bit(i.italic) + 8 * Bit(i.bold)
  }

  /** `InfoBlock`: its size counts the 14 bytes after the size member and the NUL-terminated face name. */
  const INFO_KINDS: seq<Kind> := [I32, I16, U8, U8, U16, U8, U8, U8, U8, U8, U8, U8, U8]

  function InfoValues(i: Info): (vs: seq<int>)
    ensures |vs| == |INFO_KINDS|
  {
    [ToI32(14 + |i.face| + 1), i.size, InfoFlags(i), WrittenCharset(i), i.stretchH, i.aa,
     i.paddingUp, i.paddingRight, i.paddingDown, i.paddingLeft, i.spacingHor, i.spacingVer, i.outline]
  }

  /** `CommonBlock`: 15 bytes after the size member; `packed` is bit 7 of its flag byte. */
  const COMMON_KINDS: seq<Kind> := [I32, U16, U16, U16, U16, U16, U8, U8, U8, U8, U8]

  function CommonValues(f: FontInfo): (vs: seq<int>)
    ensures |vs| == |COMMON_KINDS|
  {
    var c := f.common;
    [15, c.lineHeight, c.base, c.scaleW, c.scaleH, ToU16(|f.pages|),
     128 * Bit(c.packed), c.alphaChnl, c.redChnl, c.greenChnl, c.blueChnl]
  }

  /** `CharBlock`, 20 bytes; `page` and `channel` are `int8_t` members holding byte values. */
  const CHAR_KINDS: seq<Kind> := [U32, U16, U16, U16, U16, I16, I16, I16, U8, U8]

  function CharValues(c: Char): (vs: seq<int>)
    ensures |vs| == |CHAR_KINDS|
  {
    [c.id, c.x, c.y, c.width, c.height, c.xoffset, c.yoffset, c.xadvance, c.page, c.chnl]
  }

  /** `KerningPairsBlock`, 10 bytes. */
  const KERNING_KINDS: seq<Kind> := [U32, U32, I16]

  function KerningValues(k: Kerning): (vs: seq<int>)
    ensures |vs| == |KERNING_KINDS|
  {
    [k.first, k.second, k.amount]
  }

  /** A block's size member. */
  const SIZE_KINDS: seq<Kind> := [I32]

  function SizeBytes(size: int): seq<Byte>
  {
    Serialize(Fields(SIZE_KINDS, [size]))
  }

  function InfoBlock(i: Info): seq<Byte>
  {
    [1] + (Serialize(Fields(INFO_KINDS, InfoValues(i))) + (Bytes(i.face) + [0]))
  }

  function CommonBlock(f: FontInfo): seq<Byte>
  {
    [2] + Serialize(Fields(COMMON_KINDS, CommonValues(f)))
  }

  /** The pages block's size: a NUL-terminated name of the first name's length per page, or 1. */
  function PagesSize(pages: seq<string>): int
  {
    if pages == [] then 1 else ToI32((|pages[0]| + 1) * |pages|)
  }

  function Names(pages: seq<string>): seq<Byte>
  {
    if pages == [] then [] else Bytes(pages[0]) + ([0] + Names(pages[1..]))
  }

  /** Block 3; without pages its payload is a single NUL. */
  function PagesBlock(pages: seq<string>): seq<Byte>
  {
    [3] + (SizeBytes(PagesSize(pages)) + (if pages == [] then [0] else Names(pages)))
  }

  function CharRecords(cs: seq<Char>): seq<Byte>
  {
    if cs == [] then [] else Serialize(Fields(CHAR_KINDS, CharValues(cs[0]))) + CharRecords(cs[1..])
  }

  function CharsBlock(cs: seq<Char>): seq<Byte>
  {
    [4] + (SizeBytes(ToI32(20 * |cs|)) + CharRecords(cs))
  }

  function KerningRecords(ks: seq<Kerning>): seq<Byte>
  {
    if ks == [] then [] else Serialize(Fields(KERNING_KINDS, KerningValues(ks[0]))) + KerningRecords(ks[1..])
  }

  /** Block 5 is written only when there are kerning pairs. */
  function KerningsBlock(ks: seq<Kerning>): seq<Byte>
  {
    if ks == [] then [] else [5] + (SizeBytes(ToI32(10 * |ks|)) + KerningRecords(ks))
  }

  const MAGIC: seq<Byte> := [66, 77, 70, 3]

  /** All names have the first name's length. */
  predicate SameLengths(pages: seq<string>)
  {
    forall i :: 1 <= i < |pages| ==> |pages[i]| == |pages[0]|
  }

  function Body(f: FontInfo): seq<Byte>
  {
    InfoBlock(f.info) + (CommonBlock(f) + (PagesBlock(f.pages) + (CharsBlock(f.chars) + KerningsBlock(f.kernings))))
  }

  /**
   `writeToBinFile`. The two checks come before the file is opened: extra information cannot
   be stored, and neither can names of different lengths.
   */
  function Encode(f: FontInfo): (r: Result<seq<Byte>>)
    ensures r.Err? <==> f.extraInfo || !SameLengths(f.pages)
    ensures f.extraInfo ==> r == Err("--extra-info flag is not compatible with binary format")
    ensures !f.extraInfo && !SameLengths(f.pages) ==>
              r == Err("texture names have different length (incompatible with bin format)")
    ensures r.Ok? ==> |r.value| >= 4 && r.value[..4] == MAGIC
  {
    if f.extraInfo then Err("--extra-info flag is not compatible with binary format")
    else if !SameLengths(f.pages) then Err("texture names have different length (incompatible with bin format)")
    else Ok(MAGIC + Body(f))
  }

  // ---------------------------------------------------------------------------------------
  // Decoder

  /** Bit `k` of a flag byte. */
  function Flag(b: int, k: nat): bool
    requires k < 8
  {
    (b / [1, 2, 4, 8, 16, 32, 64, 128][k]) % 2 == 1
  }

  datatype Parsed<T> = Parsed(value: T, rest: seq<Byte>)

  /** Block 1: the face name's length is the block size less the 14 fixed bytes and the NUL. */
  function DecodeInfo(bs: seq<Byte>): Option<Parsed<Info>>
  {
    if |bs| < 1 || bs[0] != 1 then None
    else
      var p :- ReadFields(bs[1..], INFO_KINDS);
      var vs := p.0;
      var r := p.1;
      var n := vs[0] - 15;
      if n < 0 || |r| < n + 1 || r[n] != 0 then None
      else
        Some(Parsed(InfoOf(vs, Text(r[..n])), r[n + 1..]))
  }

  /** The info record from the block's member values and the face name. */
  function InfoOf(vs: seq<int>, face: string): Info
    requires |vs| == |INFO_KINDS|
  {
    Info(
      face := face, style := "", size := vs[1],
      bold := Flag(vs[2], 3), italic := Flag(vs[2], 2), charset := vs[3],
      unicode := Flag(vs[2], 1), stretchH := vs[4], smooth := Flag(vs[2], 0), aa := vs[5],
      paddingUp := vs[6], paddingRight := vs[7], paddingDown := vs[8], paddingLeft := vs[9],
      spacingHor := vs[10], spacingVer := vs[11], outline := vs[12])
  }

  /** Block 2, and the number of pages it announces. */
  function DecodeCommon(bs: seq<Byte>): Option<Parsed<(Common, nat)>>
  {
    if |bs| < 1 || bs[0] != 2 then None
    else
      var p :- ReadFields(bs[1..], COMMON_KINDS);
      var vs := p.0;
      if vs[0] != 15 || vs[5] < 0 then None
      else
        Some(Parsed((CommonOf(vs), vs[5] as nat), p.1))
  }

  /** The common record from the block's member values. */
  function CommonOf(vs: seq<int>): Common
    requires |vs| == |COMMON_KINDS|
  {
    Common(
      lineHeight := vs[1], base := vs[2], scaleW := vs[3], scaleH := vs[4],
      packed := Flag(vs[6], 7), alphaChnl := vs[7], redChnl := vs[8], greenChnl := vs[9],
      blueChnl := vs[10], totalHeight := 0, descent := 0)
  }

  /** `count` NUL-terminated names of `len` bytes each. */
  function ReadNames(bs: seq<Byte>, count: nat, len: nat): Option<Parsed<seq<string>>>
  {
    if count == 0 then Some(Parsed([], bs))
    else if |bs| < len + 1 || bs[len] != 0 then None
    else
      var p :- ReadNames(bs[len + 1..], count - 1, len);
      Some(Parsed([Text(bs[..len])] + p.value, p.rest))
  }

  /** Block 3: with no pages, a lone NUL; otherwise the size fixes the common name length. */
  function DecodePages(bs: seq<Byte>, count: nat): Option<Parsed<seq<string>>>
  {
    if |bs| < 1 || bs[0] != 3 then None
    else
      var p :- ReadFields(bs[1..], SIZE_KINDS);
      var size := p.0[0];
      var r := p.1;
      if count == 0 then
        if size != 1 || |r| < 1 || r[0] != 0 then None else Some(Parsed([], r[1..]))
      else if size <= 0 || size % count != 0 || size / count < 1 then None
      else ReadNames(r, count, size / count - 1)
  }

  function ReadChars(bs: seq<Byte>, count: nat): Option<Parsed<seq<Char>>>
    decreases count
  {
    if count == 0 then Some(Parsed([], bs))
    else
      var p :- ReadFields(bs, CHAR_KINDS);
      var vs := p.0;
      var q :- ReadChars(p.1, count - 1);
      Some(Parsed([Char(vs[0], vs[1], vs[2], vs[3], vs[4], vs[5], vs[6], vs[7], vs[8], vs[9])] + q.value, q.rest))
  }

  /** Block 4: 20 bytes per char. */
  function DecodeChars(bs: seq<Byte>): Option<Parsed<seq<Char>>>
  {
    if |bs| < 1 || bs[0] != 4 then None
    else
      var p :- ReadFields(bs[1..], SIZE_KINDS);
      var size := p.0[0];
      if size < 0 || size % 20 != 0 then None else ReadChars(p.1, size / 20)
  }

  function ReadKernings(bs: seq<Byte>, count: nat): Option<Parsed<seq<Kerning>>>
    decreases count
  {
    if count == 0 then Some(Parsed([], bs))
    else
      var p :- ReadFields(bs, KERNING_KINDS);
      var vs := p.0;
      var q :- ReadKernings(p.1, count - 1);
      Some(Parsed([Kerning(vs[0], vs[1], vs[2])] + q.value, q.rest))
  }

  /** Block 5, when present: 10 bytes per pair, and nothing may follow it. */
  function DecodeKernings(bs: seq<Byte>): Option<seq<Kerning>>
  {
    if bs == [] then Some([])
    else if bs[0] != 5 then None
    else
      var p :- ReadFields(bs[1..], SIZE_KINDS);
      var size := p.0[0];
      if size < 0 || size % 10 != 0 then None
      else
        var q :- ReadKernings(p.1, size / 10);
        if q.rest != [] then None else Some(q.value)
  }

  /** Reads a binary descriptor. */
  function Decode(bs: seq<Byte>): Option<FontInfo>
  {
    if |bs| < 4 || bs[..4] != MAGIC then None
    else
      var info :- DecodeInfo(bs[4..]);
      var common :- DecodeCommon(info.rest);
      var pages :- DecodePages(common.rest, common.value.1);
      var chars :- DecodeChars(pages.rest);
      var kernings :- DecodeKernings(chars.rest);
      Some(FontInfo(info.value, common.value.0, pages.value, chars.value, kernings, false))
  }

  // ---------------------------------------------------------------------------------------
  // Round trip

  /** What the binary format keeps: no style, total height or descent, and charset 0 for Unicode. */
  function BinView(f: FontInfo): FontInfo
  {
    f.(info := f.info.(style := "", charset := WrittenCharset(f.info)),
       common := f.common.(totalHeight := 0, descent := 0),
       extraInfo := false)
  }

  /** The sizes the `int32_t` and `uint16_t` block members can hold. */
  predicate Representable(f: FontInfo)
  {
    |f.info.face| + 15 < TWO_31
    && |f.pages| < TWO_16
    && (f.pages != [] ==> (|f.pages[0]| + 1) * |f.pages| < TWO_31)
    && 20 * |f.chars| < TWO_31
    && 10 * |f.kernings| < TWO_31
  }

  lemma FlagBits(i: Info)
    ensures IsU8(InfoFlags(i))
    ensures Flag(InfoFlags(i), 0) == i.smooth && Flag(InfoFlags(i), 1) == i.unicode
    ensures Flag(InfoFlags(i), 2) == i.italic && Flag(InfoFlags(i), 3) == i.bold
  {
  }

  /** A block size member reads back as the size, when it fits `int32_t`. */
  lemma ReadSize(size: int, rest: seq<Byte>)
    requires IsI32(size)
    ensures ReadFields(SizeBytes(size) + rest, SIZE_KINDS) == Some(([size], rest))
  {
    ReadStruct(SIZE_KINDS, [size], rest);
    var fs := Fields(SIZE_KINDS, [size]);
    assert fs[0] == Field(I32, size) && InRange(fs[0]);
    assert StoredValues(fs) == [size];
  }

  lemma InfoValuesStored(i: Info)
    requires ValidInfo(i) && |i.face| + 15 < TWO_31
    ensures StoredValues(Fields(INFO_KINDS, InfoValues(i))) == InfoValues(i)
  {
    var fs := Fields(INFO_KINDS, InfoValues(i));
    FlagBits(i);
    forall k | 0 <= k < |fs| ensures InRange(fs[k]) {
    }
  }

  lemma InfoRoundTrip(i: Info, rest: seq<Byte>)
    requires ValidInfo(i) && |i.face| + 15 < TWO_31
    ensures DecodeInfo(InfoBlock(i) + rest)
      == Some(Parsed(i.(style := "", charset := WrittenCharset(i)), rest))
  {
    var tail := Bytes(i.face) + ([0] + rest);
    var bs := InfoBlock(i) + rest;
    var n := |i.face|;
    assert bs[1..] == Serialize(Fields(INFO_KINDS, InfoValues(i))) + tail;
    ReadStruct(INFO_KINDS, InfoValues(i), tail);
    InfoValuesStored(i);
    assert InfoValues(i)[0] - 15 == n;
    assert tail[..n] == Bytes(i.face) && tail[n] == 0 && tail[n + 1..] == rest;
    DecodeInfoFrom(bs, InfoValues(i), tail, n);
    TextBytes(i.face);
    InfoOfValues(i);
  }

  /** How `DecodeInfo` reads a block whose members and face name are well formed. */
  lemma DecodeInfoFrom(bs: seq<Byte>, vs: seq<int>, r: seq<Byte>, n: nat)
    requires |bs| >= 1 && bs[0] == 1
    requires ReadFields(bs[1..], INFO_KINDS) == Some((vs, r))
    requires |vs| == |INFO_KINDS| && vs[0] - 15 == n && |r| >= n + 1 && r[n] == 0
    ensures DecodeInfo(bs) == Some(Parsed(InfoOf(vs, Text(r[..n])), r[n + 1..]))
  {
  }

  lemma InfoOfValues(i: Info)
    ensures InfoOf(InfoValues(i), i.face) == i.(style := "", charset := WrittenCharset(i))
  {
    FlagBits(i);
  }

  lemma CommonValuesStored(f: FontInfo)
    requires ValidCommon(f.common) && |f.pages| < TWO_16
    ensures StoredValues(Fields(COMMON_KINDS, CommonValues(f))) == CommonValues(f)
  {
    var fs := Fields(COMMON_KINDS, CommonValues(f));
    forall k | 0 <= k < |fs| ensures InRange(fs[k]) {
    }
  }

  lemma CommonRoundTrip(f: FontInfo, rest: seq<Byte>)
    requires ValidCommon(f.common) && |f.pages| < TWO_16
    ensures DecodeCommon(CommonBlock(f) + rest)
      == Some(Parsed((f.common.(totalHeight := 0, descent := 0), |f.pages|), rest))
  {
    var bs := CommonBlock(f) + rest;
    var vs := CommonValues(f);
    assert bs[1..] == Serialize(Fields(COMMON_KINDS, vs)) + rest;
    ReadStruct(COMMON_KINDS, vs, rest);
    CommonValuesStored(f);
    assert vs[0] == 15 && vs[5] == |f.pages|;
    DecodeCommonFrom(bs, vs, rest);
    CommonOfValues(f);
  }

  lemma CommonOfValues(f: FontInfo)
    ensures CommonOf(CommonValues(f)) == f.common.(totalHeight := 0, descent := 0)
  {
    PackedBit(f.common.packed);
  }

  /** `packed` is bit 7 of the flag byte. */
  lemma PackedBit(b: bool)
    ensures Flag(128 * Bit(b), 7) == b
  {
    assert 128 * Bit(b) / 128 == Bit(b);
  }

  /** How `DecodeCommon` reads a block whose members are well formed. */
  lemma DecodeCommonFrom(bs: seq<Byte>, vs: seq<int>, r: seq<Byte>)
    requires |bs| >= 1 && bs[0] == 2
    requires ReadFields(bs[1..], COMMON_KINDS) == Some((vs, r))
    requires |vs| == |COMMON_KINDS| && vs[0] == 15 && vs[5] >= 0
    ensures DecodeCommon(bs) == Some(Parsed((CommonOf(vs), vs[5] as nat), r))
  {
  }

  lemma {:induction false} NamesRoundTrip(pages: seq<string>, len: nat, rest: seq<Byte>)
    requires forall i :: 0 <= i < |pages| ==> |pages[i]| == len && IsByteString(pages[i])
    ensures ReadNames(Names(pages) + rest, |pages|, len) == Some(Parsed(pages, rest))
  {
    if pages != [] {
      var tail := Names(pages[1..]);
      AppendAssoc(Bytes(pages[0]), [0] + tail, rest);
      AppendAssoc([0], tail, rest);
      NamesRoundTrip(pages[1..], len, rest);
      ReadNameStep(Bytes(pages[0]), tail + rest, |pages| - 1, len, pages[1..], rest);
      TextBytes(pages[0]);
      assert pages == [pages[0]] + pages[1..];
    } else {
      assert Names(pages) + rest == rest;
    }
  }

  /** One NUL-terminated name of the common length, then the names after it. */
  lemma ReadNameStep(b: seq<Byte>, tail: seq<Byte>, count: nat, len: nat, names: seq<string>, rest: seq<Byte>)
    requires |b| == len
    requires ReadNames(tail, count, len) == Some(Parsed(names, rest))
    ensures ReadNames(b + ([0] + tail), count + 1, len) == Some(Parsed([Text(b)] + names, rest))
  {
    var bs := b + ([0] + tail);
    assert bs[..len] == b && bs[len] == 0 && bs[len + 1..] == tail;
  }

  lemma PagesRoundTrip(pages: seq<string>, rest: seq<Byte>)
    requires SameLengths(pages) && forall i :: 0 <= i < |pages| ==> IsByteString(pages[i])
    requires pages != [] ==> (|pages[0]| + 1) * |pages| < TWO_31
    ensures DecodePages(PagesBlock(pages) + rest, |pages|) == Some(Parsed(pages, rest))
  {
    var bs := PagesBlock(pages) + rest;
    var payload := if pages == [] then [0] else Names(pages);
    assert bs[1..] == SizeBytes(PagesSize(pages)) + (payload + rest);
    ReadSize(PagesSize(pages), payload + rest);
    assert ReadFields(bs[1..], SIZE_KINDS) == Some(([PagesSize(pages)], payload + rest));
    if pages == [] {
      assert (payload + rest)[1..] == rest;
    } else {
      PageNamesDecoded(pages, payload + rest, rest);
    }
  }

  /** With pages, the size member determines the name length and the names follow. */
  lemma PageNamesDecoded(pages: seq<string>, r: seq<Byte>, rest: seq<Byte>)
    requires pages != [] && SameLengths(pages) && forall i :: 0 <= i < |pages| ==> IsByteString(pages[i])
    requires (|pages[0]| + 1) * |pages| < TWO_31
    requires r == Names(pages) + rest
    ensures var size := PagesSize(pages);
      size > 0 && size % |pages| == 0 && size / |pages| >= 1
      && ReadNames(r, |pages|, size / |pages| - 1) == Some(Parsed(pages, rest))
  {
    var len := |pages[0]|;
    var n := |pages|;
    var size := PagesSize(pages);
    assert size == (len + 1) * n;
    DivModUnique(size, n, len + 1, 0);
    NamesRoundTrip(pages, len, rest);
  }

  lemma CharValuesStored(c: Char)
    requires ValidChar(c)
    ensures StoredValues(Fields(CHAR_KINDS, CharValues(c))) == CharValues(c)
  {
    var fs := Fields(CHAR_KINDS, CharValues(c));
    forall k | 0 <= k < |fs| ensures InRange(fs[k]) {
    }
  }

  /** One char record reads back as its char, leaving the bytes after it. */
  lemma ReadCharRecord(c: Char, tail: seq<Byte>)
    requires ValidChar(c)
    ensures ReadFields(Serialize(Fields(CHAR_KINDS, CharValues(c))) + tail, CHAR_KINDS) == Some((CharValues(c), tail))
  {
    ReadStruct(CHAR_KINDS, CharValues(c), tail);
    CharValuesStored(c);
  }

  lemma {:induction false} CharRecordsRoundTrip(cs: seq<Char>, rest: seq<Byte>)
    requires forall i :: 0 <= i < |cs| ==> ValidChar(cs[i])
    ensures ReadChars(CharRecords(cs) + rest, |cs|) == Some(Parsed(cs, rest))
  {
    if cs != [] {
      var first := Serialize(Fields(CHAR_KINDS, CharValues(cs[0])));
      var tail := CharRecords(cs[1..]) + rest;
      assert CharRecords(cs) == first + CharRecords(cs[1..]);
      AppendAssoc(first, CharRecords(cs[1..]), rest);
      ReadCharRecord(cs[0], tail);
      CharRecordsRoundTrip(cs[1..], rest);
      ReadCharsCons(first + tail, cs[0], tail, cs[1..], rest);
      assert cs == [cs[0]] + cs[1..];
    } else {
      assert CharRecords(cs) + rest == rest;
    }
  }

  /** A char record followed by `n` more reads as `n + 1` chars. */
  lemma ReadCharsCons(bs: seq<Byte>, c: Char, tail: seq<Byte>, more: seq<Char>, rest: seq<Byte>)
    requires ReadFields(bs, CHAR_KINDS) == Some((CharValues(c), tail))
    requires ReadChars(tail, |more|) == Some(Parsed(more, rest))
    ensures ReadChars(bs, |more| + 1) == Some(Parsed([c] + more, rest))
  {
    var vs := CharValues(c);
    assert Char(vs[0], vs[1], vs[2], vs[3], vs[4], vs[5], vs[6], vs[7], vs[8], vs[9]) == c;
  }

  lemma CharsRoundTrip(cs: seq<Char>, rest: seq<Byte>)
    requires forall i :: 0 <= i < |cs| ==> ValidChar(cs[i])
    requires 20 * |cs| < TWO_31
    ensures DecodeChars(CharsBlock(cs) + rest) == Some(Parsed(cs, rest))
  {
    var size := ToI32(20 * |cs|);
    assert size == 20 * |cs|;
    DivModUnique(size, 20, |cs|, 0);
    var bs := CharsBlock(cs) + rest;
    assert bs[1..] == SizeBytes(size) + (CharRecords(cs) + rest);
    ReadSize(size, CharRecords(cs) + rest);
    CharRecordsRoundTrip(cs, rest);
  }

  lemma KerningValuesStored(k: Kerning)
    requires ValidKerning(k)
    ensures StoredValues(Fields(KERNING_KINDS, KerningValues(k))) == KerningValues(k)
  {
    var fs := Fields(KERNING_KINDS, KerningValues(k));
    forall j | 0 <= j < |fs| ensures InRange(fs[j]) {
    }
  }

  /** One kerning record reads back as its pair, leaving the bytes after it. */
  lemma ReadKerningRecord(k: Kerning, tail: seq<Byte>)
    requires ValidKerning(k)
    ensures ReadFields(Serialize(Fields(KERNING_KINDS, KerningValues(k))) + tail, KERNING_KINDS) == Some((KerningValues(k), tail))
  {
    ReadStruct(KERNING_KINDS, KerningValues(k), tail);
    KerningValuesStored(k);
  }

  lemma {:induction false} KerningRecordsRoundTrip(ks: seq<Kerning>, rest: seq<Byte>)
    requires forall i :: 0 <= i < |ks| ==> ValidKerning(ks[i])
    ensures ReadKernings(KerningRecords(ks) + rest, |ks|) == Some(Parsed(ks, rest))
  {
    if ks != [] {
      var first := Serialize(Fields(KERNING_KINDS, KerningValues(ks[0])));
      var tail := KerningRecords(ks[1..]) + rest;
      assert KerningRecords(ks) == first + KerningRecords(ks[1..]);
      AppendAssoc(first, KerningRecords(ks[1..]), rest);
      ReadKerningRecord(ks[0], tail);
      KerningRecordsRoundTrip(ks[1..], rest);
      ReadKerningsCons(first + tail, ks[0], tail, ks[1..], rest);
      assert ks == [ks[0]] + ks[1..];
    } else {
      assert KerningRecords(ks) + rest == rest;
    }
  }

  /** A kerning record followed by `n` more reads as `n + 1` pairs. */
  lemma ReadKerningsCons(bs: seq<Byte>, k: Kerning, tail: seq<Byte>, more: seq<Kerning>, rest: seq<Byte>)
    requires ReadFields(bs, KERNING_KINDS) == Some((KerningValues(k), tail))
    requires ReadKernings(tail, |more|) == Some(Parsed(more, rest))
    ensures ReadKernings(bs, |more| + 1) == Some(Parsed([k] + more, rest))
  {
    var vs := KerningValues(k);
    assert Kerning(vs[0], vs[1], vs[2]) == k;
  }

  lemma KerningsRoundTrip(ks: seq<Kerning>)
    requires forall i :: 0 <= i < |ks| ==> ValidKerning(ks[i])
    requires 10 * |ks| < TWO_31
    ensures DecodeKernings(KerningsBlock(ks)) == Some(ks)
  {
    if ks != [] {
      var size := ToI32(10 * |ks|);
      assert size == 10 * |ks|;
      DivModUnique(size, 10, |ks|, 0);
      var bs := KerningsBlock(ks);
      assert bs != [] && bs[0] == 5;
      assert bs[1..] == SizeBytes(size) + (KerningRecords(ks) + []);
      ReadSize(size, KerningRecords(ks) + []);
      KerningRecordsRoundTrip(ks, []);
    }
  }

  function TotalWidth(ks: seq<Kind>): nat
  {
    if ks == [] then 0 else Width(ks[0]) + TotalWidth(ks[1..])
  }

  lemma {:induction false} StructLength(ks: seq<Kind>, vs: seq<int>)
    requires |ks| == |vs|
    ensures |Serialize(Fields(ks, vs))| == TotalWidth(ks)
  {
    if ks != [] {
      assert Fields(ks, vs)[1..] == Fields(ks[1..], vs[1..]);
      StructLength(ks[1..], vs[1..]);
    }
  }

  lemma NamesLength(pages: seq<string>, len: nat)
    requires forall i :: 0 <= i < |pages| ==> |pages[i]| == len
    ensures |Names(pages)| == (len + 1) * |pages|
  {
    if pages != [] {
      NamesLength(pages[1..], len);
    }
  }

  lemma CharRecordsLength(cs: seq<Char>)
    ensures |CharRecords(cs)| == 20 * |cs|
  {
    if cs != [] {
      StructLength(CHAR_KINDS, CharValues(cs[0]));
      assert TotalWidth(CHAR_KINDS) == 20;
      CharRecordsLength(cs[1..]);
    }
  }

  lemma KerningRecordsLength(ks: seq<Kerning>)
    ensures |KerningRecords(ks)| == 10 * |ks|
  {
    if ks != [] {
      StructLength(KERNING_KINDS, KerningValues(ks[0]));
      assert TotalWidth(KERNING_KINDS) == 10;
      KerningRecordsLength(ks[1..]);
    }
  }

  /** The info block: tag, size, the 14 fixed bytes and the NUL-terminated face name. */
  lemma InfoBlockLength(i: Info)
    ensures |InfoBlock(i)| == 1 + 4 + (14 + |i.face| + 1)
  {
    StructLength(INFO_KINDS, InfoValues(i));
    assert TotalWidth(INFO_KINDS) == 18;
  }

  /** The common block: tag, size and 15 bytes. */
  lemma CommonBlockLength(f: FontInfo)
    ensures |CommonBlock(f)| == 1 + 4 + 15
  {
    StructLength(COMMON_KINDS, CommonValues(f));
    assert TotalWidth(COMMON_KINDS) == 19;
  }

  /** The pages block: tag, size and as many bytes as its size member says. */
  lemma PagesBlockLength(pages: seq<string>)
    requires SameLengths(pages) && (pages != [] ==> (|pages[0]| + 1) * |pages| < TWO_31)
    ensures |PagesBlock(pages)| == 1 + 4 + PagesSize(pages)
  {
    StructLength(SIZE_KINDS, [PagesSize(pages)]);
    assert TotalWidth(SIZE_KINDS) == 4;
    if pages != [] {
      NamesLength(pages, |pages[0]|);
    }
  }

  /** The chars block: tag, size and 20 bytes per char. */
  lemma CharsBlockLength(cs: seq<Char>)
    ensures |CharsBlock(cs)| == 1 + 4 + 20 * |cs|
  {
    StructLength(SIZE_KINDS, [ToI32(20 * |cs|)]);
    assert TotalWidth(SIZE_KINDS) == 4;
    CharRecordsLength(cs);
  }

  /** The kerning block: absent without pairs, else tag, size and 10 bytes per pair. */
  lemma KerningsBlockLength(ks: seq<Kerning>)
    ensures |KerningsBlock(ks)| == if ks == [] then 0 else 1 + 4 + 10 * |ks|
  {
    if ks != [] {
      StructLength(SIZE_KINDS, [ToI32(10 * |ks|)]);
      assert TotalWidth(SIZE_KINDS) == 4;
      KerningRecordsLength(ks);
    }
  }

  /** `Decode` is the blocks' decoders in sequence. */
  lemma DecodeBlocks(bs: seq<Byte>, v: FontInfo, r1: seq<Byte>, r2: seq<Byte>, r3: seq<Byte>, r4: seq<Byte>)
    requires |bs| >= 4 && bs[..4] == MAGIC && !v.extraInfo
    requires DecodeInfo(bs[4..]) == Some(Parsed(v.info, r1))
    requires DecodeCommon(r1) == Some(Parsed((v.common, |v.pages|), r2))
    requires DecodePages(r2, |v.pages|) == Some(Parsed(v.pages, r3))
    requires DecodeChars(r3) == Some(Parsed(v.chars, r4))
    requires DecodeKernings(r4) == Some(v.kernings)
    ensures Decode(bs) == Some(v)
  {
  }

  /**
   Decoding a written file gives back the descriptor, except for what the format cannot hold
   (style, total height, descent, a charset next to the Unicode flag).
   */
  lemma EncodeDecode(f: FontInfo)
    requires Valid(f) && Representable(f)
    requires Encode(f).Ok?
    ensures Decode(Encode(f).value) == Some(BinView(f))
  {
    var bs := MAGIC + Body(f);
    var r4 := KerningsBlock(f.kernings);
    var r3 := CharsBlock(f.chars) + r4;
    var r2 := PagesBlock(f.pages) + r3;
    var r1 := CommonBlock(f) + r2;
    assert bs[4..] == InfoBlock(f.info) + r1;
    InfoRoundTrip(f.info, r1);
    CommonRoundTrip(f, r2);
    PagesRoundTrip(f.pages, r3);
    CharsRoundTrip(f.chars, r4);
    KerningsRoundTrip(f.kernings);
    DecodeBlocks(bs, BinView(f), r1, r2, r3, r4);
  }
}
