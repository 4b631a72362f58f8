/**
 `App::execute` after the command line is read: plan the pages, apply the texture-count
 limit, name the textures, assemble the descriptor and write it in the chosen format.

 The glyph table that `collectGlyphInfo` builds from the font, the packer, and the font
 engine's answers are parameters. Rendering and saving the textures is not modelled; only the
 names `renderTextures` returns are.
 */
module App {
  import opened Wrappers
  import opened MachineInts
  import opened Glyphs
  import opened Layout
  import opened Configuration
  import opened FontInfo
  import opened TextureNames
  import opened Kernings
  import opened Descriptor
  import opened Options
  import FtFont
  import TextCodec
  import TextReader
  import XmlCodec
  import BinCodec
  import JsonCodec
  import CborCodec

  /** The contents of the `.fnt` file, as each writer builds it. */
  datatype DataFile =
    | TextFile(text: string)
    | XmlFile(root: XmlCodec.Element)
    | BinFile(bytes: seq<BinCodec.Byte>)
    | JsonFile(json: JsonCodec.Json)
    | CborFile(tokens: seq<CborCodec.Token>)

  /** The format switch at the end of `writeFontInfoFile`; the binary and CBOR writers can refuse. */
  function WriteData(f: FontInfo, format: DataFormat): (r: Result<DataFile>)
    requires IsU8(f.info.charset)
  {
    match format
    case Text => Ok(TextFile(TextCodec.Write(f)))
    case Xml => Ok(XmlFile(XmlCodec.WriteAsWritten(f)))
    case Bin =>
      var bytes :- BinCodec.Encode(f);
      Ok(BinFile(bytes))
    case Json => Ok(JsonFile(JsonCodec.Write(f)))
    case Cbor =>
      var tokens :- CborCodec.Write(f);
      Ok(CborFile(tokens))
  }

  /** The binary and CBOR writers refuse extra information; the binary one also names of unequal length. */
  predicate Refuses(f: FontInfo, format: DataFormat)
  {
    (f.extraInfo && (format == Bin || format == Cbor)) || (format == Bin && !BinCodec.SameLengths(f.pages))
  }

  /** Only the binary and CBOR writers refuse: extra information, or names of unequal length. */
  lemma WriteDataRefuses(f: FontInfo, format: DataFormat)
    requires IsU8(f.info.charset)
    ensures WriteData(f, format).Err? <==> Refuses(f, format)
  {
  }

  /** A written text file reads back as the text view of the descriptor. */
  lemma TextDataReadsBack(f: FontInfo, data: DataFile)
    requires IsU8(f.info.charset) && TextReader.TextReadable(f)
    requires WriteData(f, Text) == Ok(data)
    ensures data.TextFile? && TextReader.Read(data.text) == Some(WrittenView(f))
  {
    TextFileOf(f, data);
    TextReader.TextRoundTrip(f);
  }

  /** A written XML tree reads back with `base` replaced by the descent, as the program writes it. */
  lemma XmlDataReadsBack(f: FontInfo, data: DataFile)
    requires IsU8(f.info.charset)
    requires WriteData(f, Xml) == Ok(data)
    ensures data.XmlFile? && XmlCodec.Decode(data.root) == Some(XmlCodec.AsWrittenView(f))
  {
    XmlFileOf(f, data);
    XmlCodec.XmlAsWrittenRoundTrip(f);
  }

  /** A written binary file reads back as the binary view of a representable descriptor. */
  lemma BinDataReadsBack(f: FontInfo, data: DataFile)
    requires IsU8(f.info.charset) && Valid(f) && BinCodec.Representable(f)
    requires WriteData(f, Bin) == Ok(data)
    ensures data.BinFile? && BinCodec.Decode(data.bytes) == Some(BinCodec.BinView(f))
  {
    BinFileOf(f, data);
    BinCodec.EncodeDecode(f);
  }

  /** A written JSON document reads back as the text view of the descriptor. */
  lemma JsonDataReadsBack(f: FontInfo, data: DataFile)
    requires IsU8(f.info.charset)
    requires WriteData(f, Json) == Ok(data)
    ensures data.JsonFile? && JsonCodec.Decode(data.json) == Some(WrittenView(f))
  {
    JsonFileOf(f, data);
    JsonCodec.JsonRoundTrip(f);
  }

  /** A written CBOR stream reads back as the CBOR view of the descriptor. */
  lemma CborDataReadsBack(f: FontInfo, data: DataFile)
    requires IsU8(f.info.charset)
    requires WriteData(f, Cbor) == Ok(data)
    ensures data.CborFile? && CborCodec.Decode(data.tokens) == Some(CborCodec.CborView(f))
  {
    CborFileOf(f, data);
    CborCodec.CborRoundTrip(f);
  }

  // Which file each writer gives, without the readers in view.

  lemma TextFileOf(f: FontInfo, data: DataFile)
    requires IsU8(f.info.charset)
    requires WriteData(f, Text) == Ok(data)
    ensures data == TextFile(TextCodec.Write(f))
  {
  }

  lemma XmlFileOf(f: FontInfo, data: DataFile)
    requires IsU8(f.info.charset)
    requires WriteData(f, Xml) == Ok(data)
    ensures data == XmlFile(XmlCodec.WriteAsWritten(f))
  {
  }

  lemma BinFileOf(f: FontInfo, data: DataFile)
    requires IsU8(f.info.charset)
    requires WriteData(f, Bin) == Ok(data)
    ensures data.BinFile? && BinCodec.Encode(f) == Ok(data.bytes)
  {
  }

  lemma JsonFileOf(f: FontInfo, data: DataFile)
    requires IsU8(f.info.charset)
    requires WriteData(f, Json) == Ok(data)
    ensures data == JsonFile(JsonCodec.Write(f))
  {
  }

  lemma CborFileOf(f: FontInfo, data: DataFile)
    requires IsU8(f.info.charset)
    requires WriteData(f, Cbor) == Ok(data)
    ensures data.CborFile? && CborCodec.Write(f) == Ok(data.tokens)
  {
  }

  /** The pages of one run, with their texture names and the descriptor that lists them. */
  datatype Prepared = Prepared(textureNames: seq<string>, pages: seq<Size>, descriptor: FontInfo)

  /** The font engine's part: metrics and names, kerning and shaping. */
  datatype Engine = Engine(facts: FontFacts, face: FtFont.Face, shape: Shaper)

  /** `execute` from the glyph table to the descriptor: plan, check the count, name, assemble. */
  function Prepare(c: Config, glyphs: seq<Entry>, pack: Packer, engine: Engine, d: Defaults): (r: Result<Prepared>)
    requires ValidPacker(pack) && AlignmentOk(c.alignment)
    ensures r.Ok? ==> |r.value.textureNames| == |r.value.pages|
    ensures r.Ok? ==> !c.useMaxTextureCount || |r.value.pages| <= c.maxTextureCount
    ensures r.Ok? ==> r.value.descriptor.pages == r.value.textureNames && !HasDuplicate(r.value.textureNames)
    ensures r.Ok? ==> r.value.descriptor.info.charset == d.charset
    ensures r.Ok? && c.textureNameSuffix == NoSuffix ==> |r.value.pages| <= 1
  {
    var arranged :- ArrangeGlyphs(glyphs, LayoutOf(c), pack);
    var count := |arranged.pages|;
    :- CheckTextureCount(c, count);
    var names := TextureFileNames(c.output, c.textureNameSuffix, count);
    NamesDistinctIffSuffix(c.output, c.textureNameSuffix, count);
    var f :- BuildFontInfo(c, Inputs(arranged.glyphs, names, arranged.pages, engine.facts, engine.face, engine.shape), d);
    Ok(Prepared(names, arranged.pages, f))
  }

  /** What one run produces: the prepared pages and the data file with its name. */
  datatype Run = Run(prepared: Prepared, dataFileName: string, data: DataFile)

  /** `execute` from the glyph table on. */
  function Execute(c: Config, glyphs: seq<Entry>, pack: Packer, engine: Engine, d: Defaults): (r: Result<Run>)
    requires ValidPacker(pack) && AlignmentOk(c.alignment) && IsU8(d.charset)
    ensures r.Err? <==> Prepare(c, glyphs, pack, engine, d).Err?
                        || Refuses(Prepare(c, glyphs, pack, engine, d).value.descriptor, c.dataFormat)
    ensures r.Ok? ==> Prepare(c, glyphs, pack, engine, d) == Ok(r.value.prepared)
    ensures r.Ok? ==> r.value.dataFileName == c.output + ".fnt"
    ensures r.Ok? ==> WriteData(r.value.prepared.descriptor, c.dataFormat) == Ok(r.value.data)
  {
    var prepared :- Prepare(c, glyphs, pack, engine, d);
    WriteDataRefuses(prepared.descriptor, c.dataFormat);
    var data :- WriteData(prepared.descriptor, c.dataFormat);
    Ok(Run(prepared, c.output + ".fnt", data))
  }

  /** From the command line: settings that pass the checks can always be planned with. */
  function ExecuteCommandLine(cl: CommandLine, unset: Unset, glyphs: set<nat> -> seq<Entry>, pack: Packer,
                              engine: Engine, d: Defaults): (r: Result<Run>)
    requires ValidPacker(pack) && IsU8(d.charset)
    ensures r.Ok? ==> Configure(cl, unset).Ok?
    ensures r.Ok? ==> r.value.dataFileName == cl.output.value + ".fnt"
  {
    var c :- Configure(cl, unset);
    Execute(c, glyphs(c.chars), pack, engine, d)
  }
}
