/**
 Trimming and searching of the INI parser (src/ini.c:48-89). A pointer into a
 string is the rest of the string from there on.
 */
module IniText {
  import opened Decimal

  /** INI_START_COMMENT_PREFIXES. */
  predicate StartsComment(c: char) { c == ';' || c == '#' }

  /** INI_INLINE_COMMENT_PREFIXES. */
  const INLINE_COMMENT: char := ';'

  /** Without white space at the end. */
  function Rstrip(s: string): (r: string)
    ensures r <= s && (r != [] ==> !IsSpace(r[|r| - 1]))
  {
    if s != [] && IsSpace(s[|s| - 1]) then Rstrip(s[..|s| - 1]) else s
  }

  method RstripInPlace(s: string) returns (r: string)
    ensures r == Rstrip(s)
  {
    r := s;
    while r != [] && IsSpace(r[|r| - 1])
      invariant Rstrip(r) == Rstrip(s)
    {
      r := r[..|r| - 1];
    }
  }

  /** lskip: Decimal.SkipSpace, as a loop. */
  method Lskip(s: string) returns (r: string)
    ensures r == SkipSpace(s) && |r| <= |s|
  {
    r := s;
    while r != [] && IsSpace(r[0])
      invariant SkipSpace(r) == SkipSpace(s) && |r| <= |s|
    {
      r := r[1..];
    }
  }

  /** The search stops here: a wanted character, or a comment after white space. */
  predicate Stops(chars: string, wasSpace: bool, c: char) {
    c in chars || (wasSpace && c == INLINE_COMMENT)
  }

  /** How many characters find_chars_or_comment passes. */
  function Passed(s: string, chars: string, wasSpace: bool): (n: nat)
    ensures n <= |s|
  {
    if s == [] || Stops(chars, wasSpace, s[0]) then 0 else 1 + Passed(s[1..], chars, IsSpace(s[0]))
  }

  /** find_chars_or_comment. */
  method FindCharsOrComment(s: string, chars: string) returns (n: nat)
    ensures n == Passed(s, chars, false)
  {
    var wasSpace := false;
    n := 0;
    while n < |s| && !Stops(chars, wasSpace, s[n])
      invariant n <= |s| && n + Passed(s[n..], chars, wasSpace) == Passed(s, chars, false)
    {
      wasSpace := IsSpace(s[n]);
      n := n + 1;
    }
  }

  /** The destination of strncpy0 with the given size. */
  function Truncated(s: string, size: nat): (r: string)
    requires size > 0
    ensures r <= s && |r| < size && (|s| >= size ==> |r| == size - 1) && (|s| < size ==> r == s)
  {
    if |s| < size then s else s[..size - 1]
  }

  method Strncpy0(src: string, size: nat) returns (dest: string)
    requires size > 0
    ensures dest == Truncated(src, size)
  {
    dest := [];
    while |dest| < size - 1 && |dest| < |src|
      invariant |dest| <= |src| && |dest| <= size - 1 && dest == src[..|dest|]
    {
      dest := dest + [src[|dest|]];
    }
  }
}
