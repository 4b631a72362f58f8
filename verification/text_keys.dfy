/**
 The tags and keys of the AngelCode text descriptor, in the order `writeToTextFile` writes
 them, and the fact that each is a single word the line parser can take apart.
 */
module TextKeys {
  /** A tag or key: non-empty, and free of spaces, `=`, quotes and line breaks. */
  predicate IsWord(s: string)
  {
    |s| > 0 && forall i :: 0 <= i < |s| ==> s[i] != ' ' && s[i] != '=' && s[i] != '"' && s[i] != '\n'
  }

  predicate AllWords(keys: seq<string>)
  {
    forall i :: 0 <= i < |keys| ==> IsWord(keys[i])
  }

  const INFO_KEYS: seq<string> :=
    ["face", "size", "bold", "italic", "charset", "unicode", "stretchH", "smooth", "aa",
     "padding", "spacing", "outline"]

  const COMMON_KEYS: seq<string> :=
    ["lineHeight", "base", "scaleW", "scaleH", "pages", "packed", "alphaChnl", "redChnl",
     "greenChnl", "blueChnl"]

  /** Written after the common keys with extra info. */
  const EXTRA_COMMON_KEYS: seq<string> := ["totalHeight", "descent"]

  const CHAR_KEYS: seq<string> :=
    ["id", "x", "y", "width", "height", "xoffset", "yoffset", "xadvance", "page", "chnl"]

  const KERNING_KEYS: seq<string> := ["first", "second", "amount"]

  lemma InfoKeysAreWords()
    ensures AllWords(INFO_KEYS)
  {
  }

  lemma CommonKeysAreWords()
    ensures AllWords(COMMON_KEYS)
  {
  }

  lemma ExtraKeysAreWords()
    ensures AllWords(EXTRA_COMMON_KEYS) && IsWord("style")
  {
  }

  lemma CharKeysAreWords()
    ensures AllWords(CHAR_KEYS) && AllWords(KERNING_KEYS)
  {
  }

  /** The tags, and the keys of the page and count lines. */
  lemma OtherWords()
    ensures IsWord("info") && IsWord("common") && IsWord("page") && IsWord("chars")
    ensures IsWord("char") && IsWord("kernings") && IsWord("kerning")
    ensures IsWord("id") && IsWord("file") && IsWord("count")
  {
  }
}
