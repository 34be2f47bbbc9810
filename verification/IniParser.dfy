/**
 The INI parser (src/ini.c:92-284) as nvtop builds it: lines of at most 199
 characters, continuation lines, a byte order mark, inline comments after white
 space, and no stop at the first error.
 */
module IniParser {
  import opened Options
  import opened Decimal
  import opened IniText
  import opened IniReader

  const MAX_LINE: nat := 200
  const MAX_SECTION: nat := 50
  const MAX_NAME: nat := 50

  // ------------------------------------------------------------------ lines ----

  /** A call of the handler. */
  datatype Call = Call(section: string, name: string, value: string)

  /** What the parser keeps from line to line. */
  datatype State = State(section: string, prevName: string)

  /** A line calls the handler, or is in error, or neither. */
  datatype LineResult = LineResult(state: State, call: Option<Call>, bad: bool)

  predicate HasBom(line: string) {
    |line| >= 3 && line[0] == '\U{EF}' && line[1] == '\U{BB}' && line[2] == '\U{BF}'
  }

  /** A name and a value; what follows the value as a comment is cut off. */
  function ParsePair(st: State, s: string): LineResult {
    var n := Passed(s, "=:", false);
    if n < |s| && (s[n] == '=' || s[n] == ':') then
      var name := Rstrip(s[..n]);
      var rest := s[n + 1..];
      var value := Rstrip(SkipSpace(rest[..Passed(rest, "", false)]));
      LineResult(State(st.section, Truncated(name, MAX_NAME)), Some(Call(st.section, name, value)), false)
    else LineResult(st, None, true)
  }

  function ParseSection(st: State, s: string): LineResult {
    var n := Passed(s, "]", false);
    if n < |s| && s[n] == ']' then LineResult(State(Truncated(s[..n], MAX_SECTION), ""), None, false)
    else LineResult(st, None, true)
  }

  /** A line without white space at its ends; indented says whether it had some, or a mark, at its beginning. */
  function ParseTrimmed(st: State, s: string, indented: bool): LineResult {
    if s == [] || StartsComment(s[0]) then LineResult(st, None, false)
    else if st.prevName != "" && indented then LineResult(st, Some(Call(st.section, st.prevName, s)), false)
    else if s[0] == '[' then ParseSection(st, s[1..])
    else ParsePair(st, s)
  }

  function ParseLine(st: State, line: string, first: bool): LineResult {
    var text := if first && HasBom(line) then line[3..] else line;
    var s := SkipSpace(Rstrip(text));
    ParseTrimmed(st, s, |s| < |Rstrip(text)| || |text| < |line|)
  }

  method ParseSectionLine(st: State, s: string) returns (r: LineResult)
    ensures r == ParseSection(st, s)
  {
    var end := FindCharsOrComment(s, "]");
    if end < |s| && s[end] == ']' {
      var section := Strncpy0(s[..end], MAX_SECTION);
      r := LineResult(State(section, ""), None, false);
    } else {
      r := LineResult(st, None, true);
    }
  }

  method ParsePairLine(st: State, s: string) returns (r: LineResult)
    ensures r == ParsePair(st, s)
  {
    var end := FindCharsOrComment(s, "=:");
    if end < |s| && (s[end] == '=' || s[end] == ':') {
      var name := RstripInPlace(s[..end]);
      var value := s[end + 1..];
      var comment := FindCharsOrComment(value, "");
      value := Lskip(value[..comment]);
      value := RstripInPlace(value);
      var prev := Strncpy0(name, MAX_NAME);
      r := LineResult(State(st.section, prev), Some(Call(st.section, name, value)), false);
    } else {
      r := LineResult(st, None, true);
    }
  }

  /** One round of the loop over the lines. */
  method ParseOne(st: State, line: string, first: bool) returns (r: LineResult)
    ensures r == ParseLine(st, line, first)
  {
    var start := line;
    if first && HasBom(line) {
      start := line[3..];
    }
    var stripped := RstripInPlace(start);
    var s := Lskip(stripped);
    if s == [] || StartsComment(s[0]) {
      r := LineResult(st, None, false);
    } else if st.prevName != "" && (|s| < |stripped| || |start| < |line|) {
      r := LineResult(st, Some(Call(st.section, st.prevName, s)), false);
    } else if s[0] == '[' {
      r := ParseSectionLine(st, s[1..]);
    } else {
      r := ParsePairLine(st, s);
    }
  }

  // ----------------------------------------------------------------- stream ----

  /** The calls of the handler, and the number of the first line in error (0 if there is none). */
  datatype Parsed = Parsed(calls: seq<Call>, error: nat)

  /** Whether the handler accepts a call. */
  type Handler = Call -> bool

  predicate LineFails(accepts: Handler, r: LineResult) {
    r.bad || (r.call.Some? && !accepts(r.call.value))
  }

  function ParseLines(accepts: Handler, st: State, lines: seq<string>, lineno: nat): Parsed
    decreases |lines|
  {
    if lines == [] then Parsed([], 0)
    else
      var r := ParseLine(st, lines[0], lineno == 1);
      var rest := ParseLines(accepts, r.state, lines[1..], lineno + 1);
      Parsed(CallOf(r) + rest.calls,
             if LineFails(accepts, r) then lineno else rest.error)
  }

  const INITIAL: State := State("", "")

  function Parse(accepts: Handler, text: string): Parsed {
    ParseLines(accepts, INITIAL, Chunks(text, MAX_LINE), 1)
  }

  function CallOf(r: LineResult): seq<Call> {
    if r.call.Some? then [r.call.value] else []
  }

  /** What has been read so far, together with what the lines that are left give, is the whole. */
  ghost predicate Parsing(accepts: Handler, st: State, lines: seq<string>, lineno: nat, calls: seq<Call>, error: nat,
                          whole: Parsed) {
    && whole.calls == calls + ParseLines(accepts, st, lines, lineno + 1).calls
    && whole.error == if error != 0 then error else ParseLines(accepts, st, lines, lineno + 1).error
  }

  lemma ParsingNext(accepts: Handler, st: State, lines: seq<string>, lineno: nat, calls: seq<Call>, error: nat,
                    whole: Parsed, r: LineResult)
    requires Parsing(accepts, st, lines, lineno, calls, error, whole)
    requires lines != [] && r == ParseLine(st, lines[0], lineno == 0)
    ensures Parsing(accepts, r.state, lines[1..], lineno + 1, calls + CallOf(r),
                    if LineFails(accepts, r) && error == 0 then lineno + 1 else error, whole)
  {
    var rest := ParseLines(accepts, r.state, lines[1..], lineno + 2);
    assert ParseLines(accepts, st, lines, lineno + 1).calls == CallOf(r) + rest.calls;
    assert calls + (CallOf(r) + rest.calls) == (calls + CallOf(r)) + rest.calls;
  }

  lemma ChunksNext(text: string, line: string)
    requires text != [] && line == Chunk(text, MAX_LINE)
    ensures line != [] && Chunks(text, MAX_LINE) == [line] + Chunks(text[|line|..], MAX_LINE)
  {
  }

  /** A line from the reader. */
  method ReadLine(stream: StringContext, ghost lines: seq<string>) returns (line: Option<string>)
    requires lines == Chunks(stream.text, MAX_LINE)
    modifies stream
    ensures line == if lines == [] then None else Some(lines[0])
    ensures line.Some? ==> |stream.text| < |old(stream.text)| && lines[1..] == Chunks(stream.text, MAX_LINE)
  {
    ghost var text := stream.text;
    line := stream.Read(MAX_LINE);
    if line.Some? {
      ChunksNext(text, line.value);
      assert stream.text == text[|line.value|..];
    }
  }

  /** One line is parsed, and the handler called. */
  method HandleLine(accepts: Handler, st: State, line: string, lineno: nat, calls: seq<Call>, error: nat,
                    ghost lines: seq<string>, ghost whole: Parsed)
    returns (st': State, calls': seq<Call>, error': nat)
    requires Parsing(accepts, st, lines, lineno, calls, error, whole) && lines != [] && lines[0] == line
    ensures Parsing(accepts, st', lines[1..], lineno + 1, calls', error', whole)
  {
    var r := ParseOne(st, line, lineno == 0);
    ParsingNext(accepts, st, lines, lineno, calls, error, whole, r);
    st', calls' := r.state, calls + CallOf(r);
    error' := if LineFails(accepts, r) && error == 0 then lineno + 1 else error;
  }

  /** ini_parse_stream over the string reader. */
  method ParseStream(accepts: Handler, stream: StringContext) returns (calls: seq<Call>, error: nat)
    modifies stream
    ensures Parsed(calls, error) == Parse(accepts, old(stream.text))
  {
    var st, lineno := INITIAL, 0;
    calls, error := [], 0;
    ghost var whole := Parse(accepts, stream.text);
    ghost var lines := Chunks(stream.text, MAX_LINE);
    var line := ReadLine(stream, lines);
    while line.Some?
      invariant line == if lines == [] then None else Some(lines[0])
      invariant line.Some? ==> lines[1..] == Chunks(stream.text, MAX_LINE)
      invariant Parsing(accepts, st, lines, lineno, calls, error, whole)
      decreases |lines|
    {
      st, calls, error := HandleLine(accepts, st, line.value, lineno, calls, error, lines, whole);
      lines, lineno := lines[1..], lineno + 1;
      line := ReadLine(stream, lines);
    }
  }
}
