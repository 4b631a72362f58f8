/**
 The program settings `Config` as the core reads them, after the command line is parsed.

 Only the fields the modelled operations read are kept; font paths, hinting switches,
 `tabularNumbers`, `slashedZero`, `allChars` and `verbose` only reach the font engine and
 the shaper, which are not part of this model.
 */
module Configuration {
  import opened MachineInts
  import opened Layout

  datatype DataFormat = Text | Xml | Bin | Json | Cbor

  datatype KerningPairs = Disabled | Basic | Regular | Extended

  /** `Config::TextureNameSuffix`; `NoSuffix` is the program's `None`. */
  datatype TextureNameSuffix = IndexAligned | Index | NoSuffix

  datatype Color = Color(r: int, g: int, b: int)

  datatype Config = Config(
    fontSize: int,
    padding: Padding,
    spacing: Spacing,
    alignment: Alignment,
    textureSizes: seq<Size>,
    cropWidth: bool,
    cropHeight: bool,
    output: string,
    dataFormat: DataFormat,
    kerningPairs: KerningPairs,
    textureNameSuffix: TextureNameSuffix,
    monochrome: bool,
    extraInfo: bool,
    useMaxTextureCount: bool,
    maxTextureCount: nat,
    chars: set<nat>,
    color: Color,
    backgroundTransparent: bool,
    backgroundColor: Color)

  /** The option types: `fontSize` is a `uint16_t`, padding, spacing and the texture limit `uint32_t`. */
  predicate ConfigTypesOk(c: Config)
  {
    IsU16(c.fontSize)
    && IsU32(c.padding.up) && IsU32(c.padding.right) && IsU32(c.padding.down) && IsU32(c.padding.left)
    && IsU32(c.spacing.hor) && IsU32(c.spacing.ver)
    && IsU32(c.alignment.hor) && IsU32(c.alignment.ver)
    && IsU32(c.maxTextureCount)
  }

  /** The part of the settings the page planner reads. */
  function LayoutOf(c: Config): LayoutConfig
  {
    LayoutConfig(c.spacing, c.padding, c.alignment, c.textureSizes, c.cropWidth, c.cropHeight)
  }
}
