# fontbm core in Dafny

fontbm turns a font into bitmap-font textures and a descriptor in the BMFont
interchange format. This project models its core as pure Dafny functions:

- **Atlas layout** (`Layout`, `LayoutFacts`). Each non-empty glyph becomes a rectangle
  grown by spacing and padding and rounded up to the alignment grid. The rectangles are
  handed to a bin packer over the list of candidate texture sizes, one page at a time.
  Each page may be cropped. Every packed glyph gets its position and page index.
  The MaxRects packer is an oracle (`Packer`) constrained by `ValidPacker`: the placed and
  unplaced rectangles together are a permutation of the input, every placed rectangle
  lies inside the work area, and no two placed rectangles overlap.
- **Texture names and run checks** (`TextureNames`). These cover file names with the
  `index_aligned`, `index` or `none` suffix, the duplicate-name check and the
  `--max-texture-count` limit.
- **Descriptor assembly** (`Descriptor`, `FontInfo`). This covers the info and common
  blocks with their 8/16-bit casts, the scale fields, the chars sorted by code point with
  white-space handling, and the charset names.
- **Kerning** (`Kernings`, `FtFont`). There are three ways to collect kerning pairs:
  basic and regular query FreeType per pair, and extended re-shapes each pair with
  HarfBuzz. `FtFont` holds FreeType's 26.6 fixed-point `FT_FLOOR`/`FT_CEIL`, the face and
  glyph metrics, and `getKerning`.
- **Five descriptor formats** (`TextCodec`/`TextReader`, `XmlCodec`, `BinCodec`,
  `JsonCodec`, `CborCodec`). Each writer is modelled together with a reader. Each round
  trip is proved against the part of the descriptor the format keeps.
- **Option parsing** (`Options`). This covers the code-point list, colours, texture
  sizes, keyword options, alignment and their defaults.
- **The run** (`App`). It goes from the glyph table through layout, the count check,
  naming and assembly to the data file.

`std::map` glyph tables are sequences of entries sorted by key. Fixed-width C++ integers
are unbounded Dafny integers with explicit wrap-around (`MachineInts`). The model follows
the code, including these easily missed details:

- Basic and regular kerning visit every ordered pair of the glyph table, including a
  glyph paired with itself. They do not visit only distinct pairs.
- The scale fields are set whenever there is at least one page and all pages have the
  same size, so a single page also sets them.
- Kerning amounts are cast to `int16_t` before the non-zero test.

Two defects of the code are listed under "## Findings". For each, the model has both the
code as written and a corrected definition, and the run is built on the corrected one:

- Regular kerning in the run (`Kernings.KernFor`) uses `FtFont.GetKerning`, which loads the
  side-bearing deltas of the kerned glyphs. The code loads them by character code
  (`FtFont.GetKerningAsWritten`).
- The texture sizes of the run (`Options.ReadTextureSizes`) are read with
  `Options.ParseTextureSize`, which checks each side as typed. The code wraps each side to
  32 bits before the check (`Options.ParseTextureSizeAsWritten`).

"## Left out" names every member whose contract therefore describes the corrected program.

## Model

| member | source | states |
|---|---|---|
| Layout.AlignUp | src/App.cpp:32-33 | the rounded size is a multiple of the alignment, at least the raw size and less than one alignment step above it |
| Layout.GlyphRectangles | src/App.cpp:21-38 | exactly the non-empty glyphs get a rectangle (both directions), each grown and aligned; with a key-sorted table the tags strictly increase |
| Layout.PlacingShrinks | src/App.cpp:200-204 | a packer that places anything leaves strictly fewer rectangles for the next page |
| Layout.TryOk | src/App.cpp:190-201 | one attempt on a candidate gives a packing of all remaining rectangles within the work area (candidate minus spacing, wrapped to 32 bits) |
| Layout.Scan | src/App.cpp:185-205 | the chosen candidate is the first non-skipped candidate that takes every rectangle, else the last candidate; a candidate is skipped only when its area is below the glyphs' total and it is not the last one |
| Layout.MaxEdge | src/App.cpp:214-229 | the crop extent bounds every placed glyph's right or bottom edge and is attained by one of them (or is 0 when none are placed) |
| Layout.Slots | src/App.cpp:214-222 | every placed rectangle is listed with the index of the page it went to, pages in order |
| Layout.Assign | src/App.cpp:219-221 | moving glyphs keeps the table's keys and their order |
| Layout.AssignAll | src/App.cpp:214-222 | moving the glyphs of all pages keeps the table's keys and their order |
| Layout.PageSizes | src/App.cpp:235 | one size per planned page |
| LayoutFacts.NothingPlaced | src/App.cpp:207-212 | when the packer places nothing, every rectangle is still waiting |
| LayoutFacts.PlanStep | src/App.cpp:175-235 | one outer iteration: with rectangles left it either fails with "can not fit glyphs into texture" when nothing is placed, or emits a valid page and continues with the unplaced rest |
| LayoutFacts.PlanNoRects | src/App.cpp:207-212 | with no rectangles the plan has no pages |
| LayoutFacts.PlanErrorMessage | src/App.cpp:207-211 | the only way planning fails is "can not fit glyphs into texture" |
| LayoutFacts.PlanSucceedsWhenLastPlaces | src/App.cpp:185-212 | if the last candidate always places at least one rectangle, planning succeeds |
| LayoutFacts.PlanInvariant | src/App.cpp:175-236 | the placed rectangles of all pages together are a permutation of the input, and every page holds a valid, non-overlapping packing of its candidate's work area |
| LayoutFacts.PageFitsCandidate | src/App.cpp:214-233 | a cropped page is never larger than its candidate, and every glyph at its spacing offset lies inside the page |
| LayoutFacts.TagsOfPermutation | src/App.cpp:214-222 | a permutation of rectangles is a permutation of their glyph tags |
| LayoutFacts.IncreasingOnce | src/App.cpp:25-35 | in a strictly increasing tag list each tag occurs at most once |
| LayoutFacts.AssignAllEffect | src/App.cpp:214-222 | a glyph whose tag is in no slot is untouched; a glyph whose tag is in exactly one slot gets that slot's position and page |
| LayoutFacts.EmptyGlyphNoRect | src/App.cpp:28 | an empty glyph never gets a rectangle |
| LayoutFacts.ArrangeGlyphsPlacesEachGlyphOnce | src/App.cpp:165-238 | when planning succeeds, every non-empty glyph is placed exactly once on a page that exists, at its slot's position plus spacing; empty glyphs keep their fields; one size per page |
| TextureNames.FileNameIsLastComponent | src/App.cpp:326 | the extracted file name is the longest separator-free suffix of the path |
| TextureNames.TextureFileNames | src/App.cpp:315-326 | one name per page, each the output's file name followed by the page's suffix and `.png` |
| TextureNames.IndexDigitsValue | src/App.cpp:319-322 | the written index is all digits and reads back as the page number, zero-padded or not |
| TextureNames.IndexTextInjective | src/App.cpp:317-323 | with a suffix, different pages get different name tails |
| TextureNames.NamesDistinctIffSuffix | src/App.cpp:315-341 | the generated names contain a duplicate exactly when the suffix is `none` and there are at least two pages |
| TextureNames.AlignedDigitsLength | src/App.cpp:266 | an aligned index is padded to the digit count of the last page index |
| TextureNames.AlignedNamesSameLength | src/App.cpp:266-326 | with `index_aligned` all names have the same length |
| TextureNames.PlainIndexNamesDiffer | src/App.cpp:320-322 | with `index` and more than ten pages the names differ in length |
| TextureNames.FindDuplicate | src/App.cpp:337-341 | the pairwise scan finds a duplicate exactly when two names are equal |
| Glyphs.WhiteSpaceAsRanges | src/App.cpp:398-424 | the 25-element white-space set equals its description as code-point ranges |
| Kernings.PairsComplete | src/App.cpp:572-575 | the nested loops visit every ordered pair of table entries, a glyph with itself included |
| Kernings.BasicKernings | src/App.cpp:571-593 | the loop fails exactly when some eligible pair's query fails, and otherwise records exactly the eligible pairs with a non-zero int16 amount |
| Kernings.BasicFailsIff | src/App.cpp:572-582 | over the whole table, the basic or regular collection fails exactly when the query fails for some eligible pair |
| Kernings.BasicRecordsIff | src/App.cpp:572-591 | a kerning is recorded exactly when some eligible pair of table glyphs yields it with a non-zero amount |
| Kernings.ExtendedKernings | src/App.cpp:458-569 | a kerning is recorded exactly when re-shaping the pair gives the same two glyphs in order and a non-zero advance difference |
| Kernings.ExtendedRecordsIff | src/App.cpp:458-569 | over the whole table, the extended pairs are exactly those the shaper justifies |
| Kernings.NoSecondaryFontRecords | src/App.cpp:576-580 | no recorded kerning involves a glyph from the secondary font, in any mode |
| FtFont.CDiv | src/freeType/FtFont.h:13-14 | C division truncating toward zero agrees with Euclidean division on non-negatives and is exact on multiples |
| FtFont.AndMinus64 | src/freeType/FtFont.h:13-14 | `x & -64` on 64-bit two's complement clears the low six bits: x minus x mod 64 |
| FtFont.FtFloorIsFloor | src/freeType/FtFont.h:13 | `FT_FLOOR` is the floor of x/64 |
| FtFont.FtCeilIsCeil | src/freeType/FtFont.h:14 | `FT_CEIL` is the ceiling of x/64 |
| FtFont.FloorEqualsCeilIffMultiple | src/freeType/FtFont.h:13-14 | floor and ceiling agree exactly on whole pixels |
| FtFont.ClampSizeIndex | src/freeType/FtFont.h:92-93 | the fixed-size index is the requested one when it exists, else the last size |
| FtFont.FaceMetrics | src/freeType/FtFont.h:69-128 | for scalable faces the bounding values are floors/ceilings of the scaled 26.6 values; for fixed sizes height, ascent and yMax equal the strike height and descent and yMin are 0; total height is yMax minus yMin |
| FtFont.BoldIffFlag | src/freeType/FtFont.h:111-120 | bold is bit 1 and italic is bit 0 of the style flags |
| FtFont.GlyphMetricsOf | src/freeType/FtFont.h:151-158 | glyph bearings are floored and the advance ceiled to whole pixels; size and deltas are copied |
| FtFont.RoundKerning | src/freeType/FtFont.h:227 | the pixel kerning is the nearest pixel, halves rounded up |
| FtFont.LoadDeltas | src/freeType/FtFont.h:143-145 | a glyph that FreeType cannot load fails with "Error Load glyph", the glyph index and FreeType's error code; otherwise its deltas are returned |
| FtFont.GetKerningAsWritten | src/freeType/FtFont.h:203-228 | as written: without a kerning table basic/regular give 0; a failing FreeType query propagates; bitmap faces return the raw advance; scalable faces round the raw kerning, plus, when the mode uses them, the deltas loaded with the CHARACTER CODES as glyph indices; a failed load of the left one is the error |
| FtFont.GetKerning | src/freeType/FtFont.h:203-228 | corrected: as above, but the deltas are those of the glyph indices of the two characters, and a failed load names that glyph index |
| FtFont.KerningDependsOnGlyphsOnly | src/freeType/FtFont.h:203-228 | two character pairs that map to the same glyphs get the same kerning |
| FtFont.KerningAsWrittenUsesWrongGlyph | src/freeType/FtFont.h:224-225 | counterexample: as written, the A/V kerning on a face whose glyph indices differ from the codes depends on another glyph's deltas |
| FontInfo.CharSetName | src/FontInfo.cpp:10-79 | the name is non-empty and starts with a non-digit exactly for the 19 named charsets; other values are printed in decimal |
| FontInfo.CharSetNameRoundTrip | src/FontInfo.cpp:10-79 | every byte value is recovered from its charset name |
| FontInfo.WrittenCharsetNameRead | src/FontInfo.cpp:104 | the written charset text (empty for unicode) reads back as the charset value written |
| Descriptor.DifferentFrom | src/App.cpp:343-354 | the flag is set exactly when some page differs in size from page 0 |
| Descriptor.ScaleOnlyForUniformPages | src/App.cpp:343-381 | scale is page 0's size (cast to 16 bits) exactly when there are pages all of one size; otherwise the defaults stay |
| Descriptor.SizeIsNegatedFontSize | src/App.cpp:360 | the info size is the font size negated, wrapped into int16 |
| Descriptor.SortByCode | src/App.cpp:390-395 | the glyphs are sorted by code point and are a permutation of the table |
| Descriptor.CharOf | src/App.cpp:441-442 | a char's advance is the glyph's advance cast to int16, on all channels |
| Descriptor.MakeChars | src/App.cpp:388-445 | one char per glyph |
| Descriptor.CharsAreSortedGlyphs | src/App.cpp:388-445 | the chars are, in order, the chars of the glyphs sorted by code point |
| Descriptor.CharIdsAscend | src/App.cpp:390-395 | char ids ascend |
| Descriptor.EveryGlyphHasChar | src/App.cpp:426-445 | every glyph of the table appears as a char |
| Descriptor.CharGeometry | src/App.cpp:426-445 | glyphs with geometry give their padded position and size; empty glyphs keep the blank char's geometry with their own advance |
| Descriptor.BuildFontInfo | src/App.cpp:334-596 | duplicate names fail with "textures have the same names"; otherwise the pages are the names, and info, common and chars are as assembled |
| Descriptor.BuildFontInfoKernings | src/App.cpp:447-594 | the descriptor's kernings are the ones collected for the configured mode |
| Descriptor.BuildFontInfoValid | src/App.cpp:356-445 | every field of the assembled descriptor fits its C++ type |
| Descriptor.KerningsValid | src/App.cpp:582-589 | every collected kerning fits its fields |
| BinCodec.FromLEOfLE | src/FontInfo.cpp:334-429 | little-endian bytes read back as the value written |
| BinCodec.ReadSerialize | src/FontInfo.cpp:275-331 | a packed struct's fields read back as the values stored, with signed fields wrapped |
| BinCodec.FlagBits | src/FontInfo.cpp:275-283 | the info bit field holds smooth, unicode, italic and bold at bits 0 to 3 |
| BinCodec.Encode | src/FontInfo.cpp:263-335 | the encoder fails exactly for extra info or names of unequal length, with the two messages; otherwise output starts with "BMF" and version 3 |
| BinCodec.InfoBlockLength | src/FontInfo.cpp:337-358 | the info block is a tag, a length and 14 bytes plus the zero-terminated face |
| BinCodec.CommonBlockLength | src/FontInfo.cpp:360-375 | the common block is a tag, a length and 15 bytes |
| BinCodec.PagesBlockLength | src/FontInfo.cpp:377-392 | the pages block holds every name zero-terminated, or one zero byte without pages |
| BinCodec.CharsBlockLength | src/FontInfo.cpp:394-412 | the chars block holds 20 bytes per char |
| BinCodec.KerningsBlockLength | src/FontInfo.cpp:414-429 | the kernings block is left out when there are no kernings and holds 10 bytes per pair otherwise |
| BinCodec.EncodeDecode | src/FontInfo.cpp:263-430 | a representable descriptor's binary file reads back as its binary view |
| CborCodec.Write | src/FontInfo.cpp:508-511 | the CBOR writer fails exactly for extra info |
| CborCodec.StreamIsOneItem | src/FontInfo.cpp:517-581 | the stream is one indefinite array of 31 items closed by a break |
| CborCodec.PageCountWraps | src/FontInfo.cpp:544 | the page count is written faithfully exactly when it fits 16 bits |
| CborCodec.CborRoundTrip | src/FontInfo.cpp:508-582 | without extra info the stream reads back as the CBOR view |
| JsonCodec.WrittenMembers | src/FontInfo.cpp:432-506 | the document has the five members, whose info and common decode to the written view |
| JsonCodec.JsonRoundTrip | src/FontInfo.cpp:432-506 | the JSON document reads back as the written view |
| XmlCodec.SetAttributeLookup | src/FontInfo.cpp:127-131 | setting an attribute makes it read back as the new value and leaves the others alone |
| XmlCodec.BaseOverwritten | src/FontInfo.cpp:127-131 | with extra info the descent overwrites `base` and no `descent` attribute exists |
| XmlCodec.AsWrittenLosesBase | src/FontInfo.cpp:116-131 | with extra info and base different from descent, the file does not read back as the written view |
| XmlCodec.XmlRoundTrip | src/FontInfo.cpp:81-181 | a tree with a separate `descent` attribute reads back as the written view |
| XmlCodec.XmlAsWrittenRoundTrip | src/FontInfo.cpp:81-181 | the tree as the program builds it reads back as the written view with base replaced by the descent |
| TextCodec.LinesLayout | src/FontInfo.cpp:183-261 | info, common, one page line per page, a chars count, one char line per char, then a kernings count and lines only when there are kernings |
| TextCodec.ExtraInfoAttributes | src/FontInfo.cpp:187-226 | extra info appends `style` to info and `totalHeight` and `descent` to common, and nothing otherwise |
| TextCodec.UnicodeCharsetEmpty | src/FontInfo.cpp:192 | the charset attribute is the quoted charset name, empty for unicode |
| TextCodec.LineRoundTrip | src/FontInfo.cpp:183-261 | a readable line is parsed back into its attributes |
| TextReader.TextRoundTrip | src/FontInfo.cpp:183-261 | the text file reads back as the written view |
| Options.ParseCharsString | src/ProgramOptions.cpp:171-212 | every code point read is at most U+10FFFF |
| Options.CharsRoundTrip | src/ProgramOptions.cpp:171-212 | a comma-separated list of ranges and single code points reads back as the code points it covers |
| Options.SpacesIgnored | src/ProgramOptions.cpp:173 | white space in the argument is ignored |
| Options.CodePointOutOfRange | src/ProgramOptions.cpp:195-208 | a 32-bit code point above U+10FFFF throws |
| Options.TooWideReadsAsZero | src/ProgramOptions.cpp:185-193 | a decimal too wide for 32 bits stands for code point 0 |
| Options.DefaultChars | src/ProgramOptions.cpp:86-88 | without a chars option, 32 to 126 |
| Options.ParseColor | src/ProgramOptions.cpp:226-243 | an accepted colour has the three-field syntax and byte-sized fields; every failure has the colour message |
| Options.ColorRoundTrip | src/ProgramOptions.cpp:226-243 | a colour with white space around its fields reads back as itself |
| Options.ColorFieldTooLarge | src/ProgramOptions.cpp:234-240 | a field above 255 throws |
| Options.DefaultColor | src/ProgramOptions.cpp:93 | the default colour is white |
| Options.ParseTextureSizeAsWritten | src/ProgramOptions.cpp:245-280 | as written: a non-empty list whose sides are at most 65536 after the 32-bit store |
| Options.ParseTextureSize | src/ProgramOptions.cpp:245-280 | a non-empty list of sizes whose sides lie between 1 and 65536 |
| Options.TextureSizeRoundTrip | src/ProgramOptions.cpp:245-280 | a list of valid sizes reads back in order |
| Options.WrappedSideAccepted | src/ProgramOptions.cpp:264-266 | a side that wraps past 32 bits into range is accepted as written but rejected by the checked parser |
| Options.ZeroWidthTexture | src/ProgramOptions.cpp:264-266 | `4294967296x64` gives a 0x64 texture as written |
| Options.DefaultTextureSizesDouble | src/ProgramOptions.cpp:137-155 | the 17 default sizes double width then height from 32x32 to 8192x8192, all valid |
| Options.DataFormatOf | src/ProgramOptions.cpp:98-111 | the format is recognised case-insensitively, exactly for the five names |
| Options.KerningPairsOf | src/ProgramOptions.cpp:113-123 | the kerning mode is recognised case-insensitively, exactly for the four names |
| Options.TextureNameSuffixOf | src/ProgramOptions.cpp:125-132 | the suffix is recognised case-sensitively, exactly for the three names |
| Options.ReadChars | src/ProgramOptions.cpp:86-91 | the code points are the typed ones plus those of the files |
| Options.ReadColors | src/ProgramOptions.cpp:93-96 | the foreground is byte-valued; the background is read only when given |
| Options.ReadKeywords | src/ProgramOptions.cpp:98-132 | the three keywords are read with their defaults |
| Options.ReadTextureSizes | src/ProgramOptions.cpp:134-155 | the sizes are typed and valid, or the defaults |
| Options.ReadAlignment | src/ProgramOptions.cpp:157-160 | the alignment is accepted exactly when both divisors are non-zero |
| Options.Configure | src/ProgramOptions.cpp:17-169 | accepted settings have the required files, non-zero alignment, valid texture sizes, byte colours, and the max-count and transparency flags from the options given |
| Options.ConfigureDefaults | src/ProgramOptions.cpp:84-155 | with only the required options every default applies |
| App.WriteDataRefuses | src/App.cpp:596-616 | only binary and CBOR refuse: extra info, or binary with names of unequal length |
| App.TextDataReadsBack | src/App.cpp:596-616 | a written text file reads back as the text view of the descriptor |
| App.XmlDataReadsBack | src/App.cpp:596-616 | a written XML tree reads back as the descriptor with `base` replaced by the descent, as the program writes it |
| App.BinDataReadsBack | src/App.cpp:596-616 | a written binary file of a representable descriptor reads back as its binary view |
| App.JsonDataReadsBack | src/App.cpp:596-616 | a written JSON document reads back as the text view of the descriptor |
| App.CborDataReadsBack | src/App.cpp:596-616 | a written CBOR stream reads back as the CBOR view of the descriptor |
| App.Prepare | src/App.cpp:629-635 | names and pages correspond one to one, the max texture count holds when set, the names are distinct, and `none` means at most one page |
| App.Execute | src/App.cpp:596-635 | a run fails exactly when preparing fails or the chosen writer refuses the descriptor; otherwise its data file is that descriptor written in the configured format (which the five read-back lemmas above relate to the descriptor), named output plus `.fnt` |
| App.ExecuteCommandLine | src/App.cpp:619-635 | a run only happens with accepted settings, and the data file is named after the output option |

## Left out

- FreeType and HarfBuzz calls are oracle parameters: glyph-index lookup, the kerning table, glyph loading and shaping.
- The MaxRects bin packer is not modelled. Any packer meeting `ValidPacker` may be passed in. Rotation is not modelled.
- Floating point is not modelled. `std::floor` of a float quotient is integer floor division, and the extended-kerning scale conversion is an integer input of the shaper.
- Glyph rendering, PNG encoding, background blending, file I/O and console output are not modelled.
- cxxopts parsing is not modelled. The command line is a record of the options given.
- getCharsFromFile is not modelled. The code points read from files are an input set.
- The serialisation libraries are modelled as trees and token sequences. These are tinyxml2, nlohmann json and the CBOR encoder. Their escaping and byte-level encoding are not modelled.
- `getNumberLen`, `extractFileName`, `splitStrByDelim` and `string_split` are not part of this model. They are taken to be: digit count (1 for 0); text after the last `/` or `\`; splitting that keeps empty pieces.
- FontInfo.h, GlyphInfo.h and Config.h are not part of this model. The initial field values of a descriptor are a parameter (`Descriptor.Defaults`), `isEmpty` is taken as `width == 0 || height == 0`, and `Config::Size` fields are taken to be 32-bit.
- shapeGlyphs and collectGlyphInfo are not modelled. The glyph table is an input.
- App.ExecuteCommandLine: `--all-chars` is not modelled. The glyph oracle always gets the configured code points, where the code passes every character of the font (`collectAllChars`) when the option is given.
- Layout.GlyphRectangles: the 32-bit wrap of glyph size plus spacing and padding is not modelled.
- `std::sort` is unstable. The model sorts stably, and its contracts state only sortedness and permutation.
- The 64-bit total glyph area is not wrapped.
- Kernings.KernFor: kerns with the corrected `FtFont.GetKerning`, not the code's `FtFont.GetKerningAsWritten` (see "## Findings"). The two differ in the run only in regular mode, on a scalable face with a non-zero raw kerning whose character codes are not their own glyph indices; extended kerning comes from the shaper and does not call either.
- Descriptor.BuildFontInfoKernings: its kernings come from `Kernings.KernFor`, so in regular mode they are those of the corrected kerning.
- Descriptor.BuildFontInfo: its kernings are those of the corrected kerning, as for `Descriptor.BuildFontInfoKernings`.
- App.Prepare: in regular mode its descriptor carries the kernings of the corrected kerning.
- App.Execute: in regular mode its descriptor carries the kernings of the corrected kerning.
- Options.ReadTextureSizes: reads with the corrected `Options.ParseTextureSize`. So it refuses a side of 2^32 or more, which the code wraps and may accept (`4294967296x64` gives 0x64, see `Options.ZeroWidthTexture`). Its "sizes are valid" guarantee is the corrected program's.
- Options.Configure: inherits the corrected texture-size reading, so its "valid texture sizes" guarantee is the corrected program's. `--help` is modelled as the error "help requested"; the code prints the help text and throws `HelpException`, which ends the run without that message.
- App.ExecuteCommandLine: runs the corrected texture-size reading and the corrected kerning, so it refuses command lines with a side of 2^32 or more that the code runs, and in regular mode computes the corrected kernings.

## Findings

| source | as written | input that shows it | evidently intended | confidence | as-written member | corrected member |
|---|---|---|---|---|---|---|
| src/freeType/FtFont.h:224-225 | `renderGlyph(..., left, ...)` loads the side-bearing deltas with the character code, but `renderGlyph` loads by glyph index | a face where code 65 ('A') maps to glyph 36, with regular kerning of A and V: the deltas of glyph 65 are used | load the deltas of `indexLeft` and `indexRight`, the glyphs FreeType's kerning was asked about | not executed | FtFont.GetKerningAsWritten, FtFont.KerningAsWrittenUsesWrongGlyph | FtFont.GetKerning, FtFont.KerningDependsOnGlyphsOnly |
| src/ProgramOptions.cpp:264-266 | each side is stored into a 32-bit `Config::Size` field before the `> 65536` check, so a value of 2^32 or more wraps (this assumes 32-bit `Config::Size` fields, as the regex comment's "max uint32_t" suggests, and a 64-bit `unsigned long` for `std::stoul`; src/Config.h is not part of this model) | `--texture-size 4294967296x64` gives a 0x64 texture | reject sides outside 1 to 65536 as typed | not executed | Options.ParseTextureSizeAsWritten, Options.ZeroWidthTexture | Options.ParseTextureSize, Options.TextureSizeRoundTrip |
