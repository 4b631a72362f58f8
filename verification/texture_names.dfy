/**
 Texture file names (`App::renderTextures`), the duplicate-name check that opens
 `App::writeFontInfoFile`, and the texture-count limit of `App::execute`.

 `extractFileName` is not part of this model; it is taken to return the text after the last
 `/` or `\`.
 */
module TextureNames {
  import opened Wrappers
  import opened Decimal
  import opened Configuration

  predicate IsPathSeparator(c: char)
  {
    c == '/' || c == '\\'
  }

  predicate NoSeparator(s: string)
  {
    forall i :: 0 <= i < |s| ==> !IsPathSeparator(s[i])
  }

  /** `extractFileName`: the text after the last separator (`FileNameIsLastComponent`). */
  function ExtractFileName(path: string): string
  {
    if path == [] || IsPathSeparator(path[|path| - 1]) then []
    else ExtractFileName(path[..|path| - 1]) + [path[|path| - 1]]
  }

  /** The file name is the longest separator-free suffix of the path. */
  lemma {:induction false} FileNameIsLastComponent(path: string)
    ensures LastComponent(path, ExtractFileName(path))
  {
    if path != [] && !IsPathSeparator(path[|path| - 1]) {
      var init := path[..|path| - 1];
      FileNameIsLastComponent(init);
      var name := ExtractFileName(init);
      assert ExtractFileName(path) == name + [path[|path| - 1]];
      LastComponentGrows(path, name);
    }
  }

  /** `name` is the longest separator-free suffix of `path`. */
  predicate LastComponent(path: string, name: string)
  {
    && |name| <= |path|
    && name == path[|path| - |name|..]
    && NoSeparator(name)
    && (|name| == |path| || IsPathSeparator(path[|path| - |name| - 1]))
  }

  lemma LastComponentGrows(path: string, name: string)
    requires |path| > 0 && !IsPathSeparator(path[|path| - 1])
    requires LastComponent(path[..|path| - 1], name)
    ensures LastComponent(path, name + [path[|path| - 1]])
  {
    var init := path[..|path| - 1];
    SuffixGrows(path, name);
    NoSeparatorAppend(name, [path[|path| - 1]]);
    assert NoSeparator([path[|path| - 1]]);
    if |name| < |init| {
      assert path[|path| - |name| - 2] == init[|init| - |name| - 1];
    }
  }

  /** A suffix of all but the last element, extended by the last element, is a suffix. */
  lemma SuffixGrows(path: string, name: string)
    requires |path| > 0 && |name| < |path|
    requires name == path[..|path| - 1][|path| - 1 - |name|..]
    ensures name + [path[|path| - 1]] == path[|path| - 1 - |name|..]
  {
    var full := name + [path[|path| - 1]];
    var tail := path[|path| - 1 - |name|..];
    assert |full| == |tail|;
    forall j | 0 <= j < |full| ensures full[j] == tail[j] {
      if j < |name| {
        assert full[j] == name[j] == path[|path| - 1 - |name| + j];
      }
    }
  }

  /** A separator-free tail stays in the file name. */
  lemma {:induction false} ExtractFileNameAppend(dir: string, tail: string)
    requires NoSeparator(tail)
    ensures ExtractFileName(dir + tail) == ExtractFileName(dir) + tail
    decreases |tail|
  {
    if tail != [] {
      var t := tail[..|tail| - 1];
      var path := dir + tail;
      assert path[..|path| - 1] == dir + t;
      assert path[|path| - 1] == tail[|tail| - 1];
      assert ExtractFileName(path) == ExtractFileName(dir + t) + [tail[|tail| - 1]];
      ExtractFileNameAppend(dir, t);
      assert tail == t + [tail[|tail| - 1]];
      assert ExtractFileName(dir) + t + [tail[|tail| - 1]] == ExtractFileName(dir) + tail;
    } else {
      assert dir + tail == dir;
    }
  }

  /** The page index as written after the underscore. */
  function IndexDigits(suffix: TextureNameSuffix, page: nat, count: nat): string
    requires page < count
  {
    if suffix == IndexAligned then ZeroPad(NatToString(page), DigitCount(count - 1))
    else NatToString(page)
  }

  /** The name part that follows `output`: empty for `none`, else `_` and the index. */
  function IndexText(suffix: TextureNameSuffix, page: nat, count: nat): string
    requires page < count
  {
    if suffix == NoSuffix then "" else "_" + IndexDigits(suffix, page, count)
  }

  /** What `renderTextures` appends to `output`: the index text and the `.png` extension. */
  function NameTail(suffix: TextureNameSuffix, page: nat, count: nat): string
    requires page < count
  {
    IndexText(suffix, page, count) + ".png"
  }

  /** The path the page is saved to. */
  function TexturePath(output: string, suffix: TextureNameSuffix, page: nat, count: nat): string
    requires page < count
  {
    output + NameTail(suffix, page, count)
  }

  /**
   The names `renderTextures` returns for `count` pages: the saved path with its directory
   stripped. The directory only ever comes from `output`.
   */
  function TextureFileNames(output: string, suffix: TextureNameSuffix, count: nat): (names: seq<string>)
    ensures |names| == count
    ensures forall i :: 0 <= i < count ==> names[i] == ExtractFileName(output) + NameTail(suffix, i, count)
  {
    seq(count, i requires 0 <= i < count => FileNameOf(output, suffix, i, count))
  }

  function FileNameOf(output: string, suffix: TextureNameSuffix, page: nat, count: nat): (name: string)
    requires page < count
    ensures name == ExtractFileName(output) + NameTail(suffix, page, count)
  {
    TailNoSeparator(suffix, page, count);
    ExtractFileNameAppend(output, NameTail(suffix, page, count));
    ExtractFileName(TexturePath(output, suffix, page, count))
  }

  lemma TailNoSeparator(suffix: TextureNameSuffix, page: nat, count: nat)
    requires page < count
    ensures NoSeparator(NameTail(suffix, page, count))
  {
    var d := IndexDigits(suffix, page, count);
    IndexDigitsNoSeparator(suffix, page, count);
    LiteralsNoSeparator();
    if suffix == NoSuffix {
      assert NameTail(suffix, page, count) == ".png";
    } else {
      assert IndexText(suffix, page, count) == "_" + d;
      NoSeparatorAppend("_", d);
      NoSeparatorAppend("_" + d, ".png");
    }
  }

  lemma LiteralsNoSeparator()
    ensures NoSeparator("_") && NoSeparator(".png")
  {
  }

  lemma IndexDigitsNoSeparator(suffix: TextureNameSuffix, page: nat, count: nat)
    requires page < count
    ensures NoSeparator(IndexDigits(suffix, page, count))
  {
    IndexDigitsValue(suffix, page, count);
    DigitsNoSeparator(IndexDigits(suffix, page, count));
  }

  lemma DigitsNoSeparator(d: string)
    requires AllDigits(d)
    ensures NoSeparator(d)
  {
    forall i | 0 <= i < |d| ensures !IsPathSeparator(d[i]) {
      assert IsDigit(d[i]);
    }
  }

  lemma NoSeparatorAppend(a: string, b: string)
    requires NoSeparator(a) && NoSeparator(b)
    ensures NoSeparator(a + b)
  {
    forall i | 0 <= i < |a + b| ensures !IsPathSeparator((a + b)[i]) {
      if i < |a| { assert (a + b)[i] == a[i]; } else { assert (a + b)[i] == b[i - |a|]; }
    }
  }

  /** Two pages share a name. */
  predicate HasDuplicate(names: seq<string>)
  {
    exists i, k :: 0 <= i < k < |names| && names[i] == names[k]
  }

  /** The nested loop of `writeFontInfoFile` that rejects equal texture names. */
  method FindDuplicate(names: seq<string>) returns (found: bool)
    ensures found <==> HasDuplicate(names)
  {
    if names == [] {
      return false;
    }
    var i := 0;
    while i < |names| - 1
      invariant 0 <= i <= |names| - 1
      invariant forall a, b :: 0 <= a < i && a < b < |names| ==> names[a] != names[b]
    {
      var k := i + 1;
      while k < |names|
        invariant i + 1 <= k <= |names|
        invariant forall b :: i < b < k ==> names[i] != names[b]
      {
        if names[i] == names[k] {
          return true;
        }
        k := k + 1;
      }
      i := i + 1;
    }
    return false;
  }

  /** The index digits read back as the page index, so different pages get different digits. */
  lemma IndexDigitsValue(suffix: TextureNameSuffix, page: nat, count: nat)
    requires page < count
    ensures AllDigits(IndexDigits(suffix, page, count))
    ensures ValueIn(IndexDigits(suffix, page, count), 10) == page
  {
    if suffix == IndexAligned {
      ZeroPadValue(page, DigitCount(count - 1));
    }
  }

  /** The text between the directory-free base and `.png` is recovered from a name. */
  lemma TailRecovered(base: string, t1: string, t2: string)
    requires base + (t1 + ".png") == base + (t2 + ".png")
    ensures t1 == t2
  {
    var n1 := base + (t1 + ".png");
    var n2 := base + (t2 + ".png");
    assert |t1| == |t2|;
    assert t1 == n1[|base|..|n1| - 4];
    assert t2 == n2[|base|..|n2| - 4];
  }

  /** Different pages have different index texts, unless there is no suffix. */
  lemma IndexTextInjective(suffix: TextureNameSuffix, i: nat, k: nat, count: nat)
    requires i < count && k < count && suffix != NoSuffix
    requires IndexText(suffix, i, count) == IndexText(suffix, k, count)
    ensures i == k
  {
    var ti := IndexText(suffix, i, count);
    var tk := IndexText(suffix, k, count);
    assert ti[1..] == IndexDigits(suffix, i, count);
    assert tk[1..] == IndexDigits(suffix, k, count);
    IndexDigitsValue(suffix, i, count);
    IndexDigitsValue(suffix, k, count);
  }

  /** With an index suffix every page gets its own name; with `none` all pages share one. */
  lemma NamesDistinctIffSuffix(output: string, suffix: TextureNameSuffix, count: nat)
    ensures HasDuplicate(TextureFileNames(output, suffix, count)) <==> suffix == NoSuffix && count >= 2
  {
    var names := TextureFileNames(output, suffix, count);
    var base := ExtractFileName(output);
    if suffix == NoSuffix {
      if count >= 2 {
        assert NameTail(suffix, 0, count) == NameTail(suffix, 1, count);
        assert names[0] == names[1];
      }
    } else {
      forall i, k | 0 <= i < k < count
        ensures names[i] != names[k]
      {
        if names[i] == names[k] {
          TailRecovered(base, IndexText(suffix, i, count), IndexText(suffix, k, count));
          IndexTextInjective(suffix, i, k, count);
        }
      }
    }
  }

  /** Aligned indices all have the digit count of the last page index. */
  lemma AlignedDigitsLength(page: nat, count: nat)
    requires page < count
    ensures |IndexDigits(IndexAligned, page, count)| == DigitCount(count - 1)
  {
    DigitCountMonotone(page, count - 1);
  }

  /** An aligned name tail is the underscore, the padded index and `.png`. */
  lemma AlignedTailLength(page: nat, count: nat)
    requires page < count
    ensures |NameTail(IndexAligned, page, count)| == DigitCount(count - 1) + 5
  {
    TailLength(IndexAligned, page, count);
    AlignedDigitsLength(page, count);
  }

  /** A name tail is the index text followed by the four characters of `.png`. */
  lemma TailLength(suffix: TextureNameSuffix, page: nat, count: nat)
    requires page < count
    ensures |NameTail(suffix, page, count)| == 4 + if suffix == NoSuffix then 0 else 1 + |IndexDigits(suffix, page, count)|
  {
  }

  /** Aligned indices make every name of one run the same length (the binary format needs it). */
  lemma AlignedNamesSameLength(output: string, count: nat, i: nat, k: nat)
    requires i < count && k < count
    ensures |TextureFileNames(output, IndexAligned, count)[i]| == |TextureFileNames(output, IndexAligned, count)[k]|
  {
    var names := TextureFileNames(output, IndexAligned, count);
    var base := ExtractFileName(output);
    AlignedTailLength(i, count);
    AlignedTailLength(k, count);
    assert names[i] == base + NameTail(IndexAligned, i, count);
    assert names[k] == base + NameTail(IndexAligned, k, count);
  }

  /** Without alignment, page 10 has a longer name than page 0. */
  lemma PlainIndexNamesDiffer(output: string, count: nat)
    requires count > 10
    ensures |TextureFileNames(output, Index, count)[10]| == |TextureFileNames(output, Index, count)[0]| + 1
  {
    assert NatToString(10) == NatToString(1) + [DigitChar(0)];
  }

  /** The limit check of `execute`, applied to the number of planned pages. */
  function CheckTextureCount(c: Config, pageCount: nat): (o: Outcome)
    ensures o.Fail? <==> c.useMaxTextureCount && pageCount > c.maxTextureCount
    ensures o.Fail? ==> o.msg == "too many generated textures (more than --max-texture-count)"
  {
    Need(!c.useMaxTextureCount || pageCount <= c.maxTextureCount,
         "too many generated textures (more than --max-texture-count)")
  }
}
