/**
 String helpers the option parsers and the text format rely on: splitting on a separator
 (`splitStrByDelim` and `string_split` are not part of this model and are taken to split at
 every separator; a `std::getline` loop is `GetlinePieces`, which drops a final empty
 piece), the C `isspace` class, trimming and `tolower`.
 */
module Strings {

  /** The pieces between separators; `n` separators always give `n + 1` pieces. */
  function Split(s: string, sep: char): (parts: seq<string>)
    ensures |parts| >= 1
    ensures forall i :: 0 <= i < |parts| ==> sep !in parts[i]
  {
    if s == [] then [""]
    else
      var rest := Split(s[1..], sep);
      if s[0] == sep then [""] + rest
      else [[s[0]] + rest[0]] + rest[1..]
  }

  /** The pieces joined back with the separator in between. */
  function Join(parts: seq<string>, sep: char): string
  {
    if parts == [] then ""
    else if |parts| == 1 then parts[0]
    else parts[0] + [sep] + Join(parts[1..], sep)
  }

  /** Splitting undoes joining, as long as no piece holds the separator. */
  lemma {:induction false} SplitJoin(parts: seq<string>, sep: char)
    requires |parts| >= 1
    requires forall i :: 0 <= i < |parts| ==> sep !in parts[i]
    ensures Split(Join(parts, sep), sep) == parts
    decreases |parts|, |parts[0]|
  {
    var p := parts[0];
    if |parts| == 1 {
      SplitNoSep(p, sep);
    } else if p == [] {
      var s := Join(parts, sep);
      assert s == [sep] + Join(parts[1..], sep);
      assert s[1..] == Join(parts[1..], sep);
      SplitJoin(parts[1..], sep);
      assert parts == [""] + parts[1..];
    } else {
      var s := Join(parts, sep);
      var shorter := [p[1..]] + parts[1..];
      assert Join(shorter, sep) == p[1..] + [sep] + Join(parts[1..], sep);
      assert s[1..] == Join(shorter, sep);
      assert p[0] != sep by { assert p[0] in parts[0]; }
      assert s[0] == p[0];
      SplitJoin(shorter, sep);
      assert p == [p[0]] + p[1..];
      assert parts == [[p[0]] + p[1..]] + parts[1..];
    }
  }

  /** A string without the separator is one piece. */
  lemma {:induction false} SplitNoSep(s: string, sep: char)
    requires sep !in s
    ensures Split(s, sep) == [s]
  {
    if s != [] {
      SplitNoSep(s[1..], sep);
      assert s == [s[0]] + s[1..];
    }
  }

  /** Joining is undone by splitting, so it is injective on separator-free pieces. */
  lemma JoinSplit(s: string, sep: char)
    ensures Join(Split(s, sep), sep) == s
    decreases |s|
  {
    if s != [] {
      JoinSplit(s[1..], sep);
      var rest := Split(s[1..], sep);
      assert s == [s[0]] + s[1..];
      if s[0] != sep {
        var p := [[s[0]] + rest[0]] + rest[1..];
        assert Split(s, sep) == p;
        if |rest| > 1 {
          var tail := Join(rest[1..], sep);
          assert p[1..] == rest[1..];
          assert Join(rest, sep) == rest[0] + [sep] + tail;
          assert Join(p, sep) == ([s[0]] + rest[0]) + [sep] + tail;
          assert ([s[0]] + rest[0]) + [sep] + tail == [s[0]] + (rest[0] + [sep] + tail);
        }
      } else {
        var p := [""] + rest;
        assert Split(s, sep) == p;
        assert p[1..] == rest;
      }
    }
  }

  /**
   `std::getline` in a loop: the pieces of `Split`, except that a final empty piece
   (after a trailing separator, or of the empty string) is not produced.
   */
  function GetlinePieces(s: string, sep: char): (parts: seq<string>)
    ensures forall i :: 0 <= i < |parts| ==> sep !in parts[i]
  {
    var p := Split(s, sep);
    if p[|p| - 1] == "" then p[..|p| - 1] else p
  }

  /** The characters of the C `isspace` class in the "C" locale. */
  predicate IsSpace(c: char)
  {
    c == ' ' || c == '\t' || c == '\n' || c == '\U{B}' || c == '\U{C}' || c == '\r'
  }

  /** Every character is white space. */
  predicate AllSpace(s: string)
  {
    forall i :: 0 <= i < |s| ==> IsSpace(s[i])
  }

  /** `str.erase(remove_if(..., ::isspace), ...)` */
  function RemoveSpaces(s: string): (r: string)
    ensures forall i :: 0 <= i < |r| ==> !IsSpace(r[i])
    ensures |r| <= |s|
  {
    if s == [] then ""
    else if IsSpace(s[0]) then RemoveSpaces(s[1..])
    else [s[0]] + RemoveSpaces(s[1..])
  }

  /** The number of white-space characters at the front. */
  function LeadingSpaces(s: string): (n: nat)
    ensures n <= |s| && AllSpace(s[..n]) && (n == |s| || !IsSpace(s[n]))
  {
    if s != [] && IsSpace(s[0]) then
      var n := LeadingSpaces(s[1..]);
      assert s[..n + 1] == [s[0]] + s[1..][..n];
      n + 1
    else 0
  }

  /** The number of white-space characters at the back. */
  function TrailingSpaces(s: string): (n: nat)
    ensures n <= |s| && AllSpace(s[|s| - n..]) && (n == |s| || !IsSpace(s[|s| - n - 1]))
  {
    if s != [] && IsSpace(s[|s| - 1]) then
      var t := s[..|s| - 1];
      var n := TrailingSpaces(t);
      assert s[|s| - (n + 1)..] == t[|t| - n..] + [s[|s| - 1]];
      n + 1
    else 0
  }

  function TrimLeft(s: string): (r: string)
  {
    s[LeadingSpaces(s)..]
  }

  function TrimRight(s: string): (r: string)
  {
    s[..|s| - TrailingSpaces(s)]
  }

  /** Whitespace removed from both ends. */
  function Trim(s: string): string
  {
    TrimRight(TrimLeft(s))
  }

  /** Trimming a padded string gives back the core, when the core has no space at its ends. */
  lemma TrimPadded(lead: string, core: string, trail: string)
    requires AllSpace(lead) && AllSpace(trail)
    requires |core| > 0 && !IsSpace(core[0]) && !IsSpace(core[|core| - 1])
    ensures Trim(lead + core + trail) == core
  {
    assert lead + core + trail == lead + (core + trail);
    TrimLeftPadded(lead, core + trail);
    TrimRightPadded(core, trail);
  }

  lemma {:induction false} TrimLeftPadded(lead: string, s: string)
    requires AllSpace(lead)
    requires |s| > 0 && !IsSpace(s[0])
    ensures TrimLeft(lead + s) == s
  {
    var x := lead + s;
    var n := LeadingSpaces(x);
    assert x[|lead|..] == s;
  }

  lemma {:induction false} TrimRightPadded(s: string, trail: string)
    requires AllSpace(trail)
    requires |s| > 0 && !IsSpace(s[|s| - 1])
    ensures TrimRight(s + trail) == s
  {
    var x := s + trail;
    var n := TrailingSpaces(x);
    assert x[..|s|] == s;
  }

  /** `tolower` in the "C" locale: only ASCII capitals change. */
  function LowerChar(c: char): char
  {
    if 'A' <= c <= 'Z' then (c as int + 32) as char else c
  }

  /** `std::transform(s.begin(), s.end(), s.begin(), tolower)` */
  function Lower(s: string): (r: string)
    ensures |r| == |s| && forall i :: 0 <= i < |s| ==> r[i] == LowerChar(s[i])
  {
    seq(|s|, i requires 0 <= i < |s| => LowerChar(s[i]))
  }
}
