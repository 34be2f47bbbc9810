/**
 What the INI parser makes of a line, whoever wrote it (src/ini.c:129-230): the
 kinds of lines in terms of their text, and the number of the first line in error.
 */
module IniLines {
  import opened Options
  import opened Decimal
  import opened IniText
  import opened IniReader
  import opened IniParser
  import opened IniRoundTrip

  ghost predicate Spaces(s: string) {
    forall i :: 0 <= i < |s| ==> IsSpace(s[i])
  }

  /** The characters of isspace: the blank, and the codes 9 to 13. */
  lemma SpaceCodes(c: char)
    ensures IsSpace(c) <==> c == ' ' || 9 <= c as int <= 13
  {
  }

  // -------------------------------------------------------------- trimming ----

  /** White space around the text is dropped; white space before it, or a byte order mark, makes the line indented. */
  lemma LineShape(st: State, lead: string, text: string, tail: string, first: bool)
    requires Spaces(lead) && Spaces(tail) && text != "" && Trimmed(text) && (first ==> !HasBom(lead + text + tail))
    ensures ParseLine(st, lead + text + tail, first) == ParseTrimmed(st, text, lead != "")
  {
    TextOfLine(lead, text, tail);
  }

  lemma TextOfLine(lead: string, text: string, tail: string)
    requires Spaces(lead) && Spaces(tail) && text != "" && Trimmed(text)
    ensures Rstrip(lead + text + tail) == lead + text && SkipSpace(lead + text) == text
  {
    assert (lead + text)[|lead + text| - 1] == text[|text| - 1];
    RstripsTail(lead + text, tail);
    SkipsSpaces(lead, text);
  }

  const MARK: string := "\U{EF}\U{BB}\U{BF}"

  lemma MarkedLine(st: State, lead: string, text: string, tail: string)
    requires Spaces(lead) && Spaces(tail) && text != "" && Trimmed(text)
    ensures ParseLine(st, MARK + (lead + text + tail), true) == ParseTrimmed(st, text, true)
  {
    assert (MARK + (lead + text + tail))[3..] == lead + text + tail;
    TextOfLine(lead, text, tail);
  }

  /** An empty line does nothing. */
  lemma EmptyLine(st: State, line: string, first: bool)
    requires Spaces(line)
    ensures ParseLine(st, line, first) == LineResult(st, None, false)
  {
    assert first ==> !HasBom(line);
    RstripsTail("", line);
    assert "" + line == line;
  }

  // ----------------------------------------------------- the kinds of lines ----

  /** A comment line, indented or not, calls nothing and is no error. */
  lemma CommentDoesNothing(st: State, lead: string, text: string, tail: string, first: bool)
    requires Spaces(lead) && Spaces(tail) && text != "" && Trimmed(text) && (first ==> !HasBom(lead + text + tail))
    requires text[0] == ';' || text[0] == '#'
    ensures ParseLine(st, lead + text + tail, first) == LineResult(st, None, false)
  {
    LineShape(st, lead, text, tail, first);
  }

  /** An indented line after a pair gives the name of that pair the whole line as a further value. */
  lemma ContinuationLine(st: State, lead: string, text: string, tail: string, first: bool)
    requires Spaces(lead) && Spaces(tail) && text != "" && Trimmed(text) && (first ==> !HasBom(lead + text + tail))
    requires text[0] != ';' && text[0] != '#' && st.prevName != "" && lead != ""
    ensures ParseLine(st, lead + text + tail, first)
            == LineResult(st, Some(Call(st.section, st.prevName, text)), false)
  {
    LineShape(st, lead, text, tail, first);
  }

  /** The line is read by itself: it is no comment, and not indented after a pair. */
  ghost predicate OwnLine(st: State, lead: string, text: string, tail: string, first: bool) {
    && Spaces(lead) && Spaces(tail) && text != "" && Trimmed(text) && (first ==> !HasBom(lead + text + tail))
    && text[0] != ';' && text[0] != '#' && (lead == "" || st.prevName == "")
  }

  /** What is behind a value: nothing, or white space and a comment. */
  ghost predicate CutOff(s: string) {
    s == "" || exists n: nat :: 0 < n < |s| && Spaces(s[..n]) && s[n] == INLINE_COMMENT
  }

  lemma {:induction false} PassesValue(value: string, cut: string, wasSpace: bool)
    requires Uncommented(value, "") && CutOff(cut) && !(wasSpace && value != [] && value[0] == INLINE_COMMENT)
    ensures Rstrip((value + cut)[..Passed(value + cut, "", wasSpace)]) == Rstrip(value)
  {
    if cut == "" {
      assert value + cut == value;
      PassesPlain(value, "", "", wasSpace);
    } else {
      var n: nat :| 0 < n < |cut| && Spaces(cut[..n]) && cut[n] == INLINE_COMMENT;
      PassesUpToComment(value, cut, n, wasSpace);
      assert (value + cut)[..|value| + n] == value + cut[..n];
      RstripDrops(value, cut[..n]);
    }
  }

  lemma {:induction false} RstripDrops(value: string, tail: string)
    requires Spaces(tail)
    ensures Rstrip(value + tail) == Rstrip(value)
  {
    if tail != [] {
      assert (value + tail)[..|value + tail| - 1] == value + tail[..|tail| - 1];
      RstripDrops(value, tail[..|tail| - 1]);
    } else {
      assert value + tail == value;
    }
  }

  lemma {:induction false} PassesUpToComment(value: string, cut: string, n: nat, wasSpace: bool)
    requires Uncommented(value, "") && !(wasSpace && value != [] && value[0] == INLINE_COMMENT)
    requires 0 < n < |cut| && Spaces(cut[..n]) && cut[n] == INLINE_COMMENT
    ensures Passed(value + cut, "", wasSpace) == |value| + n
  {
    if value != [] {
      assert (value + cut)[1..] == value[1..] + cut;
      assert Uncommented(value[1..], "") && (|value| > 1 ==> value[1] == value[1..][0]);
      PassesUpToComment(value[1..], cut, n, IsSpace(value[0]));
    } else {
      assert value + cut == cut;
      PassesSpaces(cut, n, wasSpace);
    }
  }

  lemma {:induction false} PassesSpaces(cut: string, n: nat, wasSpace: bool)
    requires n < |cut| && Spaces(cut[..n]) && cut[n] == INLINE_COMMENT && (n == 0 ==> wasSpace)
    ensures Passed(cut, "", wasSpace) == n
  {
    if n > 0 {
      assert IsSpace(cut[..n][0]) && cut[0] != INLINE_COMMENT;
      assert cut[1..][..n - 1] == cut[..n][1..];
      PassesSpaces(cut[1..], n - 1, IsSpace(cut[0]));
    }
  }

  /**
   A line of a name, an equals sign or a colon, and a value, with white space
   around both: the handler gets name and value, without the comment behind it.
   */
  lemma PairWithComment(st: State, lead: string, name: string, gap: string, sep: char, before: string, value: string,
                        cut: string, tail: string, first: bool)
    requires sep == '=' || sep == ':'
    requires OwnLine(st, lead, name + gap + [sep] + (before + value + cut), tail, first)
    requires Spaces(gap) && Uncommented(name, "=:") && Trimmed(name) && (name + gap + [sep])[0] != '['
    requires Spaces(before) && Uncommented(value, "") && Trimmed(value) && CutOff(cut)
    requires before != "" && value != "" ==> value[0] != INLINE_COMMENT
    ensures ParseLine(st, lead + (name + gap + [sep] + (before + value + cut)) + tail, first)
            == LineResult(State(st.section, Truncated(name, MAX_NAME)), Some(Call(st.section, name, value)), false)
  {
    var rest := before + value + cut;
    var text := name + gap + [sep] + rest;
    LineShape(st, lead, text, tail, first);
    NamePart(name, gap, sep, rest);
    ValueAndComment(before, value, cut);
    assert text[0] == (name + gap + [sep])[0];
  }

  lemma NamePart(name: string, gap: string, sep: char, rest: string)
    requires (sep == '=' || sep == ':') && Spaces(gap) && Uncommented(name, "=:") && Trimmed(name)
    ensures var text := name + gap + [sep] + rest;
            var n := Passed(text, "=:", false);
            n < |text| && text[n] == sep && Rstrip(text[..n]) == name && text[n + 1..] == rest
  {
    var text := name + gap + [sep] + rest;
    assert text == (name + gap) + ([sep] + rest);
    PassesPlain(name + gap, [sep] + rest, "=:", false);
    assert text[..|name + gap|] == name + gap;
    RstripsTail(name, gap);
  }

  lemma ValueAndComment(before: string, value: string, cut: string)
    requires Spaces(before) && Uncommented(value, "") && Trimmed(value) && CutOff(cut)
    requires before != "" && value != "" ==> value[0] != INLINE_COMMENT
    ensures var rest := before + value + cut;
            Rstrip(SkipSpace(rest[..Passed(rest, "", false)])) == value
  {
    var rest := before + value + cut;
    var kept := rest[..Passed(rest, "", false)];
    KeptValue(before, value, cut);
    var tail := StripSplit(kept);
    if value == "" {
      SkipsSpaces(kept, "");
      assert kept + "" == kept;
    } else {
      BehindSpaces(before, value, tail);
    }
  }

  lemma BehindSpaces(before: string, value: string, tail: string)
    requires Spaces(before) && value != "" && Trimmed(value) && Spaces(tail)
    ensures Rstrip(SkipSpace(before + value + tail)) == value
  {
    assert before + value + tail == before + (value + tail);
    SkipsSpaces(before, value + tail);
    RstripsTail(value, tail);
  }

  lemma KeptValue(before: string, value: string, cut: string)
    requires Spaces(before) && Uncommented(value, "") && Trimmed(value) && CutOff(cut)
    requires before != "" && value != "" ==> value[0] != INLINE_COMMENT
    ensures var rest := before + value + cut;
            Rstrip(rest[..Passed(rest, "", false)]) == if value == "" then "" else before + value
  {
    assert Uncommented(before + value, "");
    PassesValue(before + value, cut, false);
    if value == "" {
      RstripDrops("", before);
      assert "" + before == before + value;
    } else {
      RstripsTail(before + value, "");
      assert before + value + "" == before + value;
    }
  }

  /** Only white space is dropped at the end. */
  lemma {:induction false} StripSplit(s: string) returns (tail: string)
    ensures s == Rstrip(s) + tail && Spaces(tail)
  {
    if s != [] && IsSpace(s[|s| - 1]) {
      var t := StripSplit(s[..|s| - 1]);
      tail := t + [s[|s| - 1]];
    } else {
      tail := "";
    }
  }

  /** And only white space at the beginning. */
  lemma {:induction false} SkipSplit(s: string) returns (lead: string)
    ensures s == lead + SkipSpace(s) && Spaces(lead) && (SkipSpace(s) != [] ==> !IsSpace(SkipSpace(s)[0]))
  {
    if s != [] && IsSpace(s[0]) {
      var t := SkipSplit(s[1..]);
      lead := [s[0]] + t;
    } else {
      lead := "";
    }
  }

  // -------------------------------------------------------- lines in error ----

  /** One of these characters, with no comment before it. */
  ghost predicate Marked(s: string, chars: string) {
    exists i :: 0 <= i < |s| && s[i] in chars && Uncommented(s[..i], "")
  }

  lemma {:induction false} PassedStops(s: string, chars: string, wasSpace: bool)
    ensures var n := Passed(s, chars, wasSpace);
      && Uncommented(s[..n], chars) && (n < |s| ==> s[n] in chars || s[n] == INLINE_COMMENT)
      && (n > 0 && wasSpace ==> s[0] != INLINE_COMMENT)
      && (n < |s| && s[n] !in chars ==> if n == 0 then wasSpace else IsSpace(s[n - 1]))
  {
    if s != [] && !Stops(chars, wasSpace, s[0]) {
      var n := Passed(s[1..], chars, IsSpace(s[0]));
      PassedStops(s[1..], chars, IsSpace(s[0]));
      assert s[..1 + n] == [s[0]] + s[1..][..n];
    }
  }

  /** The search ends at one of the characters if and only if there is one before any comment. */
  lemma FindsMark(s: string, chars: string)
    requires INLINE_COMMENT !in chars
    ensures var n := Passed(s, chars, false); (n < |s| && s[n] in chars) <==> Marked(s, chars)
  {
    var n := Passed(s, chars, false);
    PassedStops(s, chars, false);
    if n < |s| && s[n] in chars {
      assert Uncommented(s[..n], "");
    }
    forall i: nat | i < |s| && s[i] in chars && Uncommented(s[..i], "") ensures n < |s| && s[n] in chars {
      if i < n {
        NotAmong(s, n, chars, i);
      } else if n < i {
        NoCommentAt(s, i, n);
      }
    }
  }

  lemma NotAmong(s: string, n: nat, chars: string, i: nat)
    requires i < n <= |s| && Uncommented(s[..n], chars)
    ensures s[i] !in chars
  {
    assert s[..n][i] == s[i];
  }

  lemma NoCommentAt(s: string, n: nat, i: nat)
    requires i < n <= |s| && Uncommented(s[..n], "")
    ensures i > 0 && s[i] == INLINE_COMMENT ==> !IsSpace(s[i - 1])
  {
    assert s[..n][i] == s[i];
    assert i > 0 ==> s[..n][i - 1] == s[i - 1];
  }

  /**
   A line read by itself is in error if and only if it begins a section without
   closing it, or has neither an equals sign nor a colon; what is in a comment
   does not count.
   */
  lemma LineInError(st: State, lead: string, text: string, tail: string, first: bool)
    requires OwnLine(st, lead, text, tail, first)
    ensures ParseLine(st, lead + text + tail, first).bad
            <==> if text[0] == '[' then !Marked(text[1..], "]") else !Marked(text, "=:")
  {
    LineShape(st, lead, text, tail, first);
    TextInError(st, text, lead != "");
  }

  lemma TextInError(st: State, text: string, indented: bool)
    requires text != "" && text[0] != ';' && text[0] != '#' && (!indented || st.prevName == "")
    ensures ParseTrimmed(st, text, indented).bad
            <==> if text[0] == '[' then !Marked(text[1..], "]") else !Marked(text, "=:")
  {
    if text[0] == '[' {
      FindsMark(text[1..], "]");
    } else {
      FindsMark(text, "=:");
    }
  }

  /** A line in error calls nothing and changes nothing. */
  lemma ErrorDoesNothing(st: State, line: string, first: bool)
    ensures ParseLine(st, line, first).bad ==> ParseLine(st, line, first) == LineResult(st, None, true)
  {
  }

  /** A section line, whatever follows the bracket: the name, as much as fits, and no pair before. */
  lemma SectionBegins(st: State, lead: string, name: string, rest: string, tail: string, first: bool)
    requires OwnLine(st, lead, "[" + name + "]" + rest, tail, first) && Uncommented(name, "]")
    ensures ParseLine(st, lead + ("[" + name + "]" + rest) + tail, first)
            == LineResult(State(Truncated(name, MAX_SECTION), ""), None, false)
  {
    var text := "[" + name + "]" + rest;
    LineShape(st, lead, text, tail, first);
    assert text[1..] == name + ("]" + rest);
    PassesPlain(name, "]" + rest, "]", false);
    assert text[1..][..|name|] == name;
  }

  // ------------------------------------------------------------- all lines ----

  /** What the parser has kept before line k. */
  function StateBefore(st: State, lines: seq<string>, k: nat): State
    requires k <= |lines|
  {
    if k == 0 then st else ParseLine(StateBefore(st, lines, k - 1), lines[k - 1], k == 1).state
  }

  /** What line k gives. */
  function ResultOf(st: State, lines: seq<string>, k: nat): LineResult
    requires k < |lines|
  {
    ParseLine(StateBefore(st, lines, k), lines[k], k == 0)
  }

  /** What all lines give. */
  function Results(st: State, lines: seq<string>): (r: seq<LineResult>)
    ensures |r| == |lines|
  {
    seq(|lines|, k requires 0 <= k < |lines| => ResultOf(st, lines, k))
  }

  /** The calls of these results, in order. */
  function CallsOfResults(rs: seq<LineResult>): seq<Call> {
    if rs == [] then [] else CallOf(rs[0]) + CallsOfResults(rs[1..])
  }

  /** What the lines from k on give. */
  function From(accepts: Handler, st: State, lines: seq<string>, k: nat): Parsed
    requires k <= |lines|
  {
    ParseLines(accepts, StateBefore(st, lines, k), lines[k..], k + 1)
  }

  lemma FromNext(accepts: Handler, st: State, lines: seq<string>, k: nat)
    requires k < |lines|
    ensures From(accepts, st, lines, k).calls == CallOf(ResultOf(st, lines, k)) + From(accepts, st, lines, k + 1).calls
    ensures From(accepts, st, lines, k).error
            == if LineFails(accepts, ResultOf(st, lines, k)) then k + 1 else From(accepts, st, lines, k + 1).error
  {
    assert lines[k..][1..] == lines[k + 1..] && lines[k..][0] == lines[k];
  }

  lemma {:induction false} CallsFrom(accepts: Handler, st: State, lines: seq<string>, k: nat, rs: seq<LineResult>)
    requires k <= |lines| && rs == Results(st, lines)
    ensures From(accepts, st, lines, k).calls == CallsOfResults(rs[k..])
    decreases |lines| - k
  {
    if k < |lines| {
      FromNext(accepts, st, lines, k);
      CallsFrom(accepts, st, lines, k + 1, rs);
      FirstResult(rs, k);
    }
  }

  lemma FirstResult(rs: seq<LineResult>, k: nat)
    requires k < |rs|
    ensures CallsOfResults(rs[k..]) == CallOf(rs[k]) + CallsOfResults(rs[k + 1..])
  {
    assert rs[k..][1..] == rs[k + 1..];
  }

  lemma {:induction false} ErrorFrom(accepts: Handler, st: State, lines: seq<string>, k: nat)
    requires k <= |lines| && forall i :: 0 <= i < k ==> !LineFails(accepts, ResultOf(st, lines, i))
    ensures From(accepts, st, lines, 0).error == From(accepts, st, lines, k).error
  {
    if k > 0 {
      ErrorFrom(accepts, st, lines, k - 1);
      FromNext(accepts, st, lines, k - 1);
    }
  }

  lemma FromStart(accepts: Handler, lines: seq<string>)
    ensures From(accepts, INITIAL, lines, 0) == ParseLines(accepts, INITIAL, lines, 1)
    ensures From(accepts, INITIAL, lines, |lines|) == Parsed([], 0)
  {
    assert lines[0..] == lines;
  }

  /** The result is the number of the first line that is in error or whose call is rejected, and 0 without one. */
  lemma ErrorIsFirst(accepts: Handler, lines: seq<string>, k: nat)
    requires k <= |lines| && (k < |lines| ==> LineFails(accepts, ResultOf(INITIAL, lines, k)))
    requires forall i :: 0 <= i < k ==> !LineFails(accepts, ResultOf(INITIAL, lines, i))
    ensures ParseLines(accepts, INITIAL, lines, 1).error == if k < |lines| then k + 1 else 0
  {
    ErrorFrom(accepts, INITIAL, lines, k);
    FromStart(accepts, lines);
    if k < |lines| {
      FromNext(accepts, INITIAL, lines, k);
    }
  }

  /** The calls are those of all lines in order, also after an error. */
  lemma AllLinesCall(accepts: Handler, lines: seq<string>)
    ensures ParseLines(accepts, INITIAL, lines, 1).calls == CallsOfResults(Results(INITIAL, lines))
  {
    var rs := Results(INITIAL, lines);
    CallsFrom(accepts, INITIAL, lines, 0, rs);
    FromStart(accepts, lines);
    assert rs[0..] == rs;
  }
}
