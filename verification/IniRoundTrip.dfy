/** What the parser makes of printed sections and pairs (src/ini.c:48-89, 129-230). */
module IniRoundTrip {
  import opened Options
  import opened Decimal
  import opened IniText
  import opened IniReader
  import opened IniParser

  /** A printed line. */
  datatype Item = Comment(text: string) | Blank | Section(name: string) | Pair(name: string, value: string)

  function ItemLine(item: Item): (r: string)
    ensures r != [] && r[|r| - 1] == '\n'
  {
    match item
    case Comment(text) => ";" + text + "\n"
    case Blank => "\n"
    case Section(name) => "[" + name + "]\n"
    case Pair(name, value) => name + " = " + value + "\n"
  }

  function Text(items: seq<Item>): string {
    if items == [] then "" else ItemLine(items[0]) + Text(items[1..])
  }

  /** None of these characters, and no white space in front of a semicolon. */
  ghost predicate Uncommented(s: string, chars: string) {
    && (forall i :: 0 <= i < |s| ==> s[i] !in chars)
    && (forall i :: 0 < i < |s| && s[i] == INLINE_COMMENT ==> !IsSpace(s[i - 1]))
  }

  /** Nor a newline. */
  ghost predicate Plain(s: string, chars: string) {
    Uncommented(s, chars) && forall i :: 0 <= i < |s| ==> s[i] != '\n'
  }

  ghost predicate Trimmed(s: string) {
    s != [] ==> !IsSpace(s[0]) && !IsSpace(s[|s| - 1])
  }

  ghost predicate WellFormed(item: Item) {
    && |ItemLine(item)| < MAX_LINE
    && match item
       case Comment(text) => forall i :: 0 <= i < |text| ==> text[i] != '\n'
       case Blank => true
       case Section(name) => Plain(name, "]") && |name| < MAX_SECTION
       case Pair(name, value) =>
         && Plain(name, "=:") && Trimmed(name) && name != [] && name[0] != '[' && !StartsComment(name[0])
         && Plain(value, "") && Trimmed(value) && (value != [] ==> value[0] != INLINE_COMMENT)
  }

  /** The calls the lines stand for: every pair, with the section it is in. */
  function CallsOf(items: seq<Item>, section: string): seq<Call> {
    if items == [] then []
    else match items[0]
      case Section(name) => CallsOf(items[1..], name)
      case Pair(name, value) => [Call(section, name, value)] + CallsOf(items[1..], section)
      case _ => CallsOf(items[1..], section)
  }

  // The reader delivers the printed lines.

  lemma {:induction false} ChunkIsLine(line: string, rest: string, num: nat)
    requires line != [] && line[|line| - 1] == '\n' && |line| < num
    requires forall i :: 0 <= i < |line| - 1 ==> line[i] != '\n'
    ensures Chunk(line + rest, num) == line
  {
    if |line| > 1 {
      assert (line + rest)[1..] == line[1..] + rest;
      ChunkIsLine(line[1..], rest, num - 1);
      assert line == [line[0]] + line[1..];
    } else {
      assert line == ['\n'];
    }
  }

  lemma OneNewline(item: Item)
    requires WellFormed(item)
    ensures forall i :: 0 <= i < |ItemLine(item)| - 1 ==> ItemLine(item)[i] != '\n'
  {
  }

  function Lines(items: seq<Item>): seq<string> {
    if items == [] then [] else [ItemLine(items[0])] + Lines(items[1..])
  }

  lemma {:induction false} ReaderDeliversLines(items: seq<Item>)
    requires forall i :: 0 <= i < |items| ==> WellFormed(items[i])
    ensures Chunks(Text(items), MAX_LINE) == Lines(items)
  {
    if items != [] {
      var line, rest := ItemLine(items[0]), Text(items[1..]);
      OneNewline(items[0]);
      ChunkIsLine(line, rest, MAX_LINE);
      ReaderDeliversLines(items[1..]);
      ChunksNext(line + rest, line);
      assert (line + rest)[|line|..] == rest;
    }
  }

  // Stripping and searching a printed line.

  lemma {:induction false} RstripsTail(a: string, tail: string)
    requires (a != [] ==> !IsSpace(a[|a| - 1])) && forall i :: 0 <= i < |tail| ==> IsSpace(tail[i])
    ensures Rstrip(a + tail) == a
  {
    if tail != [] {
      assert (a + tail)[..|a + tail| - 1] == a + tail[..|tail| - 1];
      RstripsTail(a, tail[..|tail| - 1]);
    } else {
      assert a + tail == a;
    }
  }

  lemma SkipsLead(b: string)
    requires b != [] ==> !IsSpace(b[0])
    ensures SkipSpace(" " + b) == b && SkipSpace(b) == b
  {
    assert (" " + b)[1..] == b;
  }

  /** The search passes plain text, up to a wanted character or the end. */
  lemma {:induction false} PassesPlain(s: string, rest: string, chars: string, wasSpace: bool)
    requires Uncommented(s, chars) && !(wasSpace && s != [] && s[0] == INLINE_COMMENT)
    requires rest != [] ==> rest[0] in chars
    ensures Passed(s + rest, chars, wasSpace) == |s|
  {
    if s != [] {
      assert (s + rest)[1..] == s[1..] + rest;
      assert Uncommented(s[1..], chars) && (|s| > 1 ==> s[1] == s[1..][0]);
      PassesPlain(s[1..], rest, chars, IsSpace(s[0]));
    } else {
      assert s + rest == rest;
    }
  }

  /** A line that begins with neither white space nor a mark reaches the parser without its end. */
  lemma WholeLine(st: State, text: string, line: string, first: bool)
    requires text != [] && !IsSpace(text[0]) && !IsSpace(text[|text| - 1])
    requires (line == text + "\n" || line == text + " \n") && (first ==> !HasBom(line))
    ensures ParseLine(st, line, first) == ParseTrimmed(st, text, false)
  {
    RstripsTail(text, "\n");
    RstripsTail(text, " \n");
    SkipsLead(text);
  }

  lemma CommentLine(st: State, text: string, first: bool)
    ensures ParseLine(st, ";" + text + "\n", first) == LineResult(st, None, false)
  {
    var line := ";" + text + "\n";
    RstripKeepsHead(line);
    SkipsLead(Rstrip(line));
  }

  lemma {:induction false} RstripKeepsHead(s: string)
    requires s != [] && !IsSpace(s[0])
    ensures Rstrip(s) != [] && Rstrip(s)[0] == s[0]
  {
    if IsSpace(s[|s| - 1]) {
      RstripKeepsHead(s[..|s| - 1]);
    }
  }

  lemma BlankLine(st: State, first: bool)
    ensures ParseLine(st, "\n", first) == LineResult(st, None, false)
  {
    RstripsTail("", "\n");
    assert "" + "\n" == "\n";
  }

  lemma SectionLine(st: State, name: string, first: bool)
    requires Plain(name, "]") && |name| < MAX_SECTION
    ensures ParseLine(st, "[" + name + "]\n", first) == LineResult(State(name, ""), None, false)
  {
    var text := "[" + name + "]";
    assert "[" + name + "]\n" == text + "\n";
    WholeLine(st, text, text + "\n", first);
    assert text[1..] == name + "]";
    PassesPlain(name, "]", "]", false);
    assert (name + "]")[..|name|] == name;
  }

  /** The separator is found behind the name. */
  lemma SeparatorFound(name: string, rest: string)
    requires Plain(name, "=:") && Trimmed(name)
    ensures |name + " =" + rest| == |name| + 2 + |rest|
    ensures Passed(name + " =" + rest, "=:", false) == |name| + 1
    ensures (name + " =" + rest)[..|name| + 1] == name + " " && (name + " =" + rest)[|name| + 1] == '='
    ensures (name + " =" + rest)[|name| + 2..] == rest
    ensures Rstrip(name + " ") == name
  {
    assert name + " =" + rest == (name + " ") + ("=" + rest);
    PassesPlain(name + " ", "=" + rest, "=:", false);
    RstripsTail(name, " ");
  }

  lemma PairParts(st: State, name: string, rest: string, value: string)
    requires Plain(name, "=:") && Trimmed(name)
    requires Plain(value, "") && Trimmed(value) && (value != [] ==> value[0] != INLINE_COMMENT)
    requires rest == if value == [] then "" else " " + value
    ensures ParsePair(st, name + " =" + rest)
            == LineResult(State(st.section, Truncated(name, MAX_NAME)), Some(Call(st.section, name, value)), false)
  {
    SeparatorFound(name, rest);
    ValuePart(rest, value);
  }

  /** The value is found behind the separator. */
  lemma ValuePart(rest: string, value: string)
    requires Plain(value, "") && Trimmed(value) && (value != [] ==> value[0] != INLINE_COMMENT)
    requires rest == if value == [] then "" else " " + value
    ensures Rstrip(SkipSpace(rest[..Passed(rest, "", false)])) == value
  {
    if value != [] {
      PassesPlain(rest, "", "", false);
      assert rest + "" == rest && rest[..|rest|] == rest;
      SkipsLead(value);
    }
  }

  lemma PairLine(st: State, name: string, value: string, first: bool)
    requires WellFormed(Pair(name, value)) && (first ==> !HasBom(ItemLine(Pair(name, value))))
    ensures ParseLine(st, ItemLine(Pair(name, value)), first)
            == LineResult(State(st.section, Truncated(name, MAX_NAME)), Some(Call(st.section, name, value)), false)
  {
    var line := ItemLine(Pair(name, value));
    var rest := if value == [] then "" else " " + value;
    var text := name + " =" + rest;
    assert line == if value == [] then text + " \n" else text + "\n";
    WholeLine(st, text, line, first);
    PairParts(st, name, rest, value);
  }

  function SectionAfter(item: Item, section: string): string {
    if item.Section? then item.name else section
  }

  function CallsOfItem(item: Item, section: string): Option<Call> {
    if item.Pair? then Some(Call(section, item.name, item.value)) else None
  }

  lemma PrintedLine(st: State, item: Item, first: bool)
    requires WellFormed(item) && (first ==> !HasBom(ItemLine(item)))
    ensures var r := ParseLine(st, ItemLine(item), first);
      !r.bad && r.call == CallsOfItem(item, st.section) && r.state.section == SectionAfter(item, st.section)
  {
    match item
    case Comment(text) => CommentLine(st, text, first);
    case Blank => BlankLine(st, first);
    case Section(name) => SectionLine(st, name, first);
    case Pair(name, value) => PairLine(st, name, value, first);
  }

  ghost predicate AllAccepted(accepts: Handler, calls: seq<Call>) {
    forall i :: 0 <= i < |calls| ==> accepts(calls[i])
  }

  /** The parser made these calls; it reports an error exactly if one of them was rejected. */
  ghost predicate ParsedAs(accepts: Handler, p: Parsed, calls: seq<Call>) {
    p.calls == calls && (p.error == 0 <==> AllAccepted(accepts, calls))
  }

  lemma ParsedNext(accepts: Handler, st: State, line: string, lines: seq<string>, lineno: nat, r: LineResult,
                   calls: seq<Call>)
    requires lineno > 0 && r == ParseLine(st, line, lineno == 1) && !r.bad
    requires ParsedAs(accepts, ParseLines(accepts, r.state, lines, lineno + 1), calls)
    ensures ParsedAs(accepts, ParseLines(accepts, st, [line] + lines, lineno), CallOf(r) + calls)
  {
    assert ([line] + lines)[1..] == lines;
    AcceptedParts(accepts, CallOf(r), calls);
  }

  lemma {:induction false} PrintedLines(accepts: Handler, st: State, items: seq<Item>, lineno: nat)
    requires forall i :: 0 <= i < |items| ==> WellFormed(items[i])
    requires lineno == 1 && items != [] ==> !HasBom(ItemLine(items[0]))
    requires lineno > 0
    ensures ParsedAs(accepts, ParseLines(accepts, st, Lines(items), lineno), CallsOf(items, st.section))
    decreases |items|
  {
    if items != [] {
      var line := ItemLine(items[0]);
      PrintedLine(st, items[0], lineno == 1);
      var r := ParseLine(st, line, lineno == 1);
      PrintedLines(accepts, r.state, items[1..], lineno + 1);
      ParsedNext(accepts, st, line, Lines(items[1..]), lineno, r, CallsOf(items[1..], r.state.section));
      FirstCall(items, st.section);
    }
  }

  lemma FirstCall(items: seq<Item>, section: string)
    requires items != []
    ensures CallsOf(items, section) ==
            (if items[0].Pair? then [Call(section, items[0].name, items[0].value)] else [])
            + CallsOf(items[1..], SectionAfter(items[0], section))
  {
  }

  lemma AcceptedParts(accepts: Handler, a: seq<Call>, b: seq<Call>)
    ensures AllAccepted(accepts, a + b) <==> AllAccepted(accepts, a) && AllAccepted(accepts, b)
  {
    assert forall i :: 0 <= i < |a| ==> (a + b)[i] == a[i];
    assert forall i :: 0 <= i < |b| ==> (a + b)[|a| + i] == b[i];
  }

  /**
   Parsing printed lines calls the handler with exactly the printed names and
   values, each with its section, in order; the result is 0 if and only if the
   handler accepts every call.
   */
  lemma RoundTrip(accepts: Handler, items: seq<Item>)
    requires forall i :: 0 <= i < |items| ==> WellFormed(items[i])
    requires items != [] ==> !HasBom(ItemLine(items[0]))
    ensures Parse(accepts, Text(items)).calls == CallsOf(items, "")
    ensures Parse(accepts, Text(items)).error == 0 <==> AllAccepted(accepts, CallsOf(items, ""))
  {
    ReaderDeliversLines(items);
    PrintedLines(accepts, INITIAL, items, 1);
  }
}
