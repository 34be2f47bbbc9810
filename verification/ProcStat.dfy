/**
 Reading /proc/<pid>/stat (djeti/sys_proc_pool.c:111-170). A pointer into the
 line is the rest of the line from there on.
 */
module ProcStat {
  import opened Options
  import opened CIntegers
  import opened Decimal

  const LINE_SIZE: nat := 2048
  const MAX_FIELDS: nat := 64
  const FIELDS_NEEDED: nat := 22

  predicate IsBlank(c: char) { c == ' ' || c == '\t' }

  // ------------------------------------------------------------- tokenize ----

  function SkipBlanks(s: string): (r: string)
    ensures |r| <= |s|
  {
    if s != [] && IsBlank(s[0]) then SkipBlanks(s[1..]) else s
  }

  function SkipWord(s: string): (r: string)
    ensures |r| <= |s| && (s != [] && !IsBlank(s[0]) ==> |r| < |s|)
    ensures r != [] ==> IsBlank(r[0])
  {
    if s != [] && !IsBlank(s[0]) then SkipWord(s[1..]) else s
  }

  /** The text from each of the first max fields on. */
  function Tokens(s: string, max: nat): (r: seq<string>)
    ensures |r| <= max
    decreases max
  {
    var t := SkipBlanks(s);
    if max == 0 || t == [] then [] else [t] + Tokens(SkipWord(t), max - 1)
  }

  /** tokenize: the beginnings of the fields and, for each, the first place behind it. */
  method Tokenize(line: string, max: nat) returns (fields: seq<string>, ends: seq<string>)
    ensures fields == Tokens(line, max)
    ensures |ends| == |fields| && forall i :: 0 <= i < |fields| ==> ends[i] == SkipWord(fields[i])
  {
    var p := line;
    fields, ends := [], [];
    while p != [] && |fields| < max
      invariant |fields| <= max && fields + Tokens(p, max - |fields|) == Tokens(line, max)
      invariant |ends| == |fields| && forall i :: 0 <= i < |fields| ==> ends[i] == SkipWord(fields[i])
      decreases max - |fields|
    {
      ghost var p0 := p;
      while p != [] && IsBlank(p[0])
        invariant SkipBlanks(p) == SkipBlanks(p0)
      {
        p := p[1..];
      }
      if p == [] {
        break;
      }
      fields := fields + [p];
      ghost var p1 := p;
      while p != [] && !IsBlank(p[0])
        invariant SkipWord(p) == SkipWord(p1)
      {
        p := p[1..];
      }
      ends := ends + [p];
    }
  }

  // -------------------------------------------------------------- read_stat ----

  /** What is read of a process. */
  datatype Stat = Stat(
    state: char, ppid: CInt, utime: CULong, stime: CULong, cutime: CULong, cstime: CULong,
    priority: CInt, nice: CInt, threads: CLong, vsize: CULong, rssPages: CULong)

  /** fgets: at most size - 1 characters, up to the end of the first line. */
  function Fgets(file: string, size: nat): string
    requires size > 0
  {
    if size == 1 || file == [] then []
    else if file[0] == '\n' then "\n"
    else [file[0]] + Fgets(file[1..], size - 1)
  }

  /** strchr. */
  function StrChr(s: string, c: char): Option<string> {
    if s == [] then None else if s[0] == c then Some(s) else StrChr(s[1..], c)
  }

  /** strrchr. */
  function StrRChr(s: string, c: char): (r: Option<string>)
    ensures r.Some? ==> 0 < |r.value| <= |s|
  {
    if s == [] then None
    else
      var later := StrRChr(s[1..], c);
      if later.Some? then later else if s[0] == c then Some(s) else None
  }

  /** The text after the last parenthesis that follows the first opening one. */
  function Tail(line: string): Option<string> {
    var open_ := StrChr(line, '(');
    if open_.None? then None
    else
      var close := StrRChr(open_.value, ')');
      if close.None? then None else Some(SkipSpaces(close.value[1..]))
  }

  function SkipSpaces(s: string): (r: string)
    ensures |r| <= |s|
  {
    if s != [] && s[0] == ' ' then SkipSpaces(s[1..]) else s
  }

  function StatOf(fields: seq<string>): Stat
    requires |fields| >= FIELDS_NEEDED && fields[0] != []
  {
    Stat(fields[0][0], Int32(StrToL(fields[1])),
         StrToUll(fields[11]), StrToUll(fields[12]), StrToUll(fields[13]), StrToUll(fields[14]),
         Int32(StrToL(fields[15])), Int32(StrToL(fields[16])), StrToL(fields[17]),
         StrToUll(fields[20]), StrToUll(fields[21]))
  }

  lemma {:induction false} TokensNotEmpty(s: string, max: nat)
    ensures forall i :: 0 <= i < |Tokens(s, max)| ==> Tokens(s, max)[i] != []
    decreases max
  {
    if max > 0 && SkipBlanks(s) != [] {
      TokensNotEmpty(SkipWord(SkipBlanks(s)), max - 1);
    }
  }

  /** The parsing part of read_stat, on the contents of the file; no result leaves the record as it is. */
  method ReadStat(file: string) returns (stat: Option<Stat>)
    ensures stat == Parsed(file)
  {
    stat := None;
    var line := Fgets(file, LINE_SIZE);
    var open_ := StrChr(line, '(');
    var close := if open_.Some? then StrRChr(open_.value, ')') else None;
    if open_.Some? && close.Some? {
      var p := close.value[1..];
      ghost var p0 := p;
      while p != [] && p[0] == ' '
        invariant SkipSpaces(p) == SkipSpaces(p0)
      {
        p := p[1..];
      }
      var fields, _ := Tokenize(p, MAX_FIELDS);
      TokensNotEmpty(p, MAX_FIELDS);
      if |fields| >= FIELDS_NEEDED {
        stat := Some(StatOf(fields));
      }
    }
  }

  function Parsed(file: string): Option<Stat> {
    var tail := Tail(Fgets(file, LINE_SIZE));
    if tail.None? then None
    else
      var fields := Tokens(tail.value, MAX_FIELDS);
      if |fields| >= FIELDS_NEEDED && fields[0] != [] then Some(StatOf(fields)) else None
  }

  // ------------------------------------------------------------- round trip ----

  /** A field of the line: not empty, no white space, no closing parenthesis. */
  ghost predicate IsField(f: string) {
    f != [] && forall i :: 0 <= i < |f| ==> f[i] != ')' && f[i] != '\n' && !IsBlank(f[i])
  }

  /** Fields as the kernel writes them: separated by one space, at the end of the line a newline. */
  function Line(fields: seq<string>): string {
    if fields == [] then ""
    else fields[0] + (if |fields| == 1 then "\n" else " ") + Line(fields[1..])
  }

  /** The whole line; the name of the program can be any text in one line. */
  function Render(pid: nat, comm: string, fields: seq<string>): string {
    Digits(pid) + " (" + comm + ")" + (" " + Line(fields))
  }

  ghost predicate OneLine(s: string) {
    forall i :: 0 <= i < |s| ==> s[i] != '\n'
  }

  /** The values of the fields, at their places; the other fields are arbitrary. */
  ghost predicate Describes(fields: seq<string>, stat: Stat) {
    && |fields| >= FIELDS_NEEDED && (forall i :: 0 <= i < |fields| ==> IsField(fields[i]))
    && fields[0] == [stat.state] && fields[1] == Print(stat.ppid)
    && fields[11] == Print(stat.utime) && fields[12] == Print(stat.stime)
    && fields[13] == Print(stat.cutime) && fields[14] == Print(stat.cstime)
    && fields[15] == Print(stat.priority) && fields[16] == Print(stat.nice) && fields[17] == Print(stat.threads)
    && fields[20] == Print(stat.vsize) && fields[21] == Print(stat.rssPages)
  }

  lemma {:induction false} SkipsField(f: string, rest: string)
    requires (forall i :: 0 <= i < |f| ==> !IsBlank(f[i])) && rest != [] && IsBlank(rest[0])
    ensures SkipWord(f + rest) == rest
  {
    if f != [] {
      SkipsField(f[1..], rest);
      assert (f + rest)[1..] == f[1..] + rest;
    } else {
      assert f + rest == rest;
    }
  }

  lemma {:induction false} SkipsLastField(f: string)
    requires forall i :: 0 <= i < |f| ==> !IsBlank(f[i])
    ensures SkipWord(f) == []
  {
    if f != [] {
      SkipsLastField(f[1..]);
    }
  }

  /** What is left of the line once the first field is passed. */
  function AfterField(fields: seq<string>): string {
    if |fields| <= 1 then "" else " " + Line(fields[1..])
  }

  lemma LineOfOne(f: string)
    ensures Line([f]) == f + "\n"
  {
    assert Line([f][1..]) == "";
    assert f + "\n" + "" == f + "\n";
  }

  lemma PassesBlanks(fields: seq<string>, blanks: string)
    requires fields != [] && IsField(fields[0])
    requires forall i :: 0 <= i < |blanks| ==> IsBlank(blanks[i])
    ensures SkipBlanks(blanks + Line(fields)) == Line(fields) != []
  {
    assert Line(fields)[0] == fields[0][0];
    SkipsBlanks(blanks, Line(fields));
  }

  lemma PassesLastField(f: string)
    requires IsField(f)
    ensures SkipWord(Line([f])) == ""
  {
    LineOfOne(f);
    SkipsLastField(f + "\n");
  }

  lemma PassesField(fields: seq<string>)
    requires fields != [] && IsField(fields[0])
    ensures SkipWord(Line(fields)) == AfterField(fields)
  {
    if |fields| == 1 {
      PassesLastField(fields[0]);
      assert fields == [fields[0]];
    } else {
      assert Line(fields) == fields[0] + AfterField(fields);
      SkipsField(fields[0], AfterField(fields));
    }
  }

  /** The tokens point to the beginnings of the fields, as far as there is room for them. */
  ghost predicate PointTo(tokens: seq<string>, fields: seq<string>, max: nat) {
    && |tokens| == (if |fields| < max then |fields| else max)
    && |tokens| <= |fields| && forall i: nat :: i < |tokens| ==> PointsTo(tokens, fields, i)
  }

  /** The token is the line from this field on. */
  ghost predicate PointsTo(tokens: seq<string>, fields: seq<string>, i: nat)
    requires i < |tokens| <= |fields|
  {
    tokens[i] == Line(fields[i..])
  }

  lemma PointToNext(tokens: seq<string>, fields: seq<string>, max: nat)
    requires max > 0 && fields != [] && PointTo(tokens, fields[1..], max - 1)
    ensures PointTo([Line(fields)] + tokens, fields, max)
  {
    var all := [Line(fields)] + tokens;
    forall i: nat | i < |all| ensures PointsTo(all, fields, i) {
      if i == 0 {
        assert fields[0..] == fields;
      } else {
        assert PointsTo(tokens, fields[1..], i - 1);
        assert fields[i..] == fields[1..][i - 1..];
      }
    }
  }

  /** The first token, and what is left to tokenize. */
  lemma FirstToken(fields: seq<string>, blanks: string, max: nat)
    requires fields != [] && IsField(fields[0]) && max > 0
    requires forall i :: 0 <= i < |blanks| ==> IsBlank(blanks[i])
    ensures Tokens(blanks + Line(fields), max) == [Line(fields)] + Tokens(AfterField(fields), max - 1)
    ensures |fields| == 1 ==> Tokens(AfterField(fields), max - 1) == []
  {
    PassesBlanks(fields, blanks);
    PassesField(fields);
    NextToken(blanks + Line(fields), Line(fields), AfterField(fields), max);
  }

  /** Tokenizing the line finds the fields. */
  lemma {:induction false} TokensOfLine(fields: seq<string>, blanks: string, max: nat)
    requires forall i :: 0 <= i < |fields| ==> IsField(fields[i])
    requires forall i :: 0 <= i < |blanks| ==> IsBlank(blanks[i])
    requires fields != []
    ensures PointTo(Tokens(blanks + Line(fields), max), fields, max)
    decreases |fields|, 1
  {
    var tokens := Tokens(blanks + Line(fields), max);
    if max == 0 {
      assert tokens == [];
    } else {
      var rest := Tokens(AfterField(fields), max - 1);
      FirstToken(fields, blanks, max);
      OtherTokens(fields, max - 1);
      PointToNext(rest, fields, max);
      assert tokens == [Line(fields)] + rest;
    }
  }

  lemma {:induction false} OtherTokens(fields: seq<string>, max: nat)
    requires fields != [] && forall i :: 0 <= i < |fields| ==> IsField(fields[i])
    ensures PointTo(Tokens(AfterField(fields), max), fields[1..], max)
    decreases |fields|, 0
  {
    if |fields| == 1 {
      assert SkipBlanks("") == "";
    } else {
      TokensOfLine(fields[1..], " ", max);
    }
  }

  lemma NextToken(s: string, t: string, u: string, max: nat)
    requires max > 0 && SkipBlanks(s) == t != [] && SkipWord(t) == u
    ensures Tokens(s, max) == [t] + Tokens(u, max - 1)
    ensures u == "" ==> Tokens(u, max - 1) == []
  {
  }

  lemma {:induction false} SkipsBlanks(blanks: string, s: string)
    requires (forall i :: 0 <= i < |blanks| ==> IsBlank(blanks[i])) && (s != [] ==> !IsBlank(s[0]))
    ensures SkipBlanks(blanks + s) == s
  {
    if blanks != [] {
      assert (blanks + s)[1..] == blanks[1..] + s;
      SkipsBlanks(blanks[1..], s);
    } else {
      assert blanks + s == s;
    }
  }

  lemma {:induction false} LineFree(fields: seq<string>)
    requires forall i :: 0 <= i < |fields| ==> IsField(fields[i])
    ensures StrRChr(Line(fields), ')') == None
  {
    if fields != [] {
      LineFree(fields[1..]);
      var sep := if |fields| == 1 then "\n" else " ";
      NoLast(fields[0] + sep, Line(fields[1..]));
    }
  }

  lemma {:induction false} NoLast(a: string, b: string)
    requires (forall i :: 0 <= i < |a| ==> a[i] != ')') && StrRChr(b, ')') == None
    ensures StrRChr(a + b, ')') == None
  {
    if a != [] {
      assert (a + b)[1..] == a[1..] + b;
      NoLast(a[1..], b);
    } else {
      assert a + b == b;
    }
  }

  /** Parentheses in the name do not hide the last one. */
  lemma {:induction false} LastParenthesis(a: string, b: string)
    requires StrRChr(b, ')') == None
    ensures StrRChr(a + ")" + b, ')') == Some(")" + b)
  {
    var s := a + ")" + b;
    if a != [] {
      assert s[1..] == a[1..] + ")" + b;
      LastParenthesis(a[1..], b);
    } else {
      assert s == ")" + b && s[1..] == b;
    }
  }

  lemma {:induction false} FirstParenthesis(a: string, b: string)
    requires forall i :: 0 <= i < |a| ==> IsDigit(a[i]) || a[i] == ' '
    ensures StrChr(a + "(" + b, '(') == Some("(" + b)
  {
    var s := a + "(" + b;
    if a != [] {
      assert s[1..] == a[1..] + "(" + b;
      FirstParenthesis(a[1..], b);
    } else {
      assert s == "(" + b;
    }
  }

  /** The anchor of the fields is found behind the name, whatever the name is. */
  lemma Anchored(pid: nat, comm: string, rest: string)
    requires StrRChr(rest, ')') == None
    ensures StrChr(Digits(pid) + " (" + comm + ")" + rest, '(') == Some("(" + comm + ")" + rest)
    ensures StrRChr("(" + comm + ")" + rest, ')') == Some(")" + rest)
  {
    FirstParenthesis(Digits(pid) + " ", comm + ")" + rest);
    LastParenthesis("(" + comm, rest);
    assert Digits(pid) + " (" + comm + ")" + rest == (Digits(pid) + " ") + "(" + (comm + ")" + rest);
    assert "(" + (comm + ")" + rest) == "(" + comm + ")" + rest;
  }

  lemma TailIsLine(pid: nat, comm: string, fields: seq<string>)
    requires fields != [] && forall i :: 0 <= i < |fields| ==> IsField(fields[i])
    ensures Tail(Render(pid, comm, fields)) == Some(Line(fields))
  {
    var line := Line(fields);
    var rest := " " + line;
    LineFree(fields);
    NoLast(" ", line);
    Anchored(pid, comm, rest);
    SkipsOneSpace(line, fields);
    assert (")" + rest)[1..] == rest;
  }

  lemma SkipsOneSpace(line: string, fields: seq<string>)
    requires fields != [] && IsField(fields[0]) && line == Line(fields)
    ensures SkipSpaces(" " + line) == line
  {
    assert line[0] == fields[0][0];
    assert (" " + line)[1..] == line;
  }

  /** Reading a line stops behind its newline. */
  lemma {:induction false} GetsOneLine(a: string, b: string, size: nat)
    requires OneLine(a) && |a| + 1 < size
    ensures Fgets(a + "\n" + b, size) == a + "\n"
  {
    var s := a + "\n" + b;
    if a != [] {
      assert s[1..] == a[1..] + "\n" + b;
      GetsOneLine(a[1..], b, size - 1);
    }
  }

  lemma {:induction false} LineEnds(fields: seq<string>) returns (a: string)
    requires fields != [] && forall i :: 0 <= i < |fields| ==> IsField(fields[i])
    ensures Line(fields) == a + "\n" && OneLine(a)
  {
    if |fields| == 1 {
      a := fields[0];
    } else {
      var b := LineEnds(fields[1..]);
      a := fields[0] + " " + b;
    }
  }

  lemma FieldValue(fields: seq<string>, i: nat, n: int)
    requires i < |fields| && fields[i] == Print(n)
    ensures Signed(Line(fields[i..])) == n
  {
    var rest := fields[i..];
    var after := (if |rest| == 1 then "\n" else " ") + Line(rest[1..]);
    assert Line(rest) == Print(n) + after;
    PrintedNumber(n, after);
  }

  /**
   If the line fits the buffer, reading it gives the values written for every
   name in one line, spaces and unbalanced parentheses included. A name with a
   newline hides the fields: unless it could hold as many itself, nothing is
   read. Linux keeps at most 15 characters of a name.
   */
  lemma StatRoundTrip(pid: nat, comm: string, fields: seq<string>, stat: Stat)
    requires Describes(fields, stat) && |Render(pid, comm, fields)| < LINE_SIZE
    ensures OneLine(comm) ==> Parsed(Render(pid, comm, fields)) == Some(stat)
    ensures |comm| < 2 * FIELDS_NEEDED ==> (Parsed(Render(pid, comm, fields)) == Some(stat) <==> OneLine(comm))
    ensures |comm| < 2 * FIELDS_NEEDED && !OneLine(comm) ==> Parsed(Render(pid, comm, fields)) == None
  {
    if OneLine(comm) {
      NameInOneLine(pid, comm, fields, stat);
    } else if |comm| < 2 * FIELDS_NEEDED {
      NameWithNewline(pid, comm, fields);
    }
  }

  lemma GetsAll(pid: nat, comm: string, fields: seq<string>)
    requires OneLine(comm) && |Render(pid, comm, fields)| < LINE_SIZE
    requires fields != [] && forall i :: 0 <= i < |fields| ==> IsField(fields[i])
    ensures Fgets(Render(pid, comm, fields), LINE_SIZE) == Render(pid, comm, fields)
  {
    var a := LineEnds(fields);
    var text := RenderEnds(pid, comm, fields, a);
    GetsOneLine(text, "", LINE_SIZE);
    assert text + "\n" + "" == text + "\n";
  }

  lemma RenderEnds(pid: nat, comm: string, fields: seq<string>, a: string) returns (text: string)
    requires OneLine(comm) && Line(fields) == a + "\n" && OneLine(a)
    ensures OneLine(text) && Render(pid, comm, fields) == text + "\n"
  {
    var name := Digits(pid) + " (" + comm + ")";
    assert OneLine(name);
    text := name + (" " + a);
    assert name + (" " + (a + "\n")) == text + "\n";
  }

  lemma NameInOneLine(pid: nat, comm: string, fields: seq<string>, stat: Stat)
    requires OneLine(comm) && Describes(fields, stat) && |Render(pid, comm, fields)| < LINE_SIZE
    ensures Parsed(Render(pid, comm, fields)) == Some(stat)
  {
    GetsAll(pid, comm, fields);
    TailIsLine(pid, comm, fields);
    var tokens := Tokens(Line(fields), MAX_FIELDS);
    TokensOfLine(fields, "", MAX_FIELDS);
    assert "" + Line(fields) == Line(fields);
    StatFromTokens(fields, stat, tokens);
  }

  // ---------------------------------------------------- a name of two lines ----

  lemma {:induction false} FirstNewline(s: string) returns (a: string, b: string)
    requires !OneLine(s)
    ensures s == a + "\n" + b && OneLine(a)
  {
    if s[0] == '\n' {
      a, b := "", s[1..];
    } else {
      a, b := FirstNewline(s[1..]);
      a := [s[0]] + a;
    }
  }

  /** Between two fields there is a blank: a text cannot have more fields than half of its characters. */
  lemma {:induction false} FewTokens(s: string, max: nat)
    ensures 2 * |Tokens(s, max)| <= |s| + 1
    decreases max
  {
    var t := SkipBlanks(s);
    if max > 0 && t != [] {
      var u := SkipWord(t);
      if u != [] {
        assert Tokens(u, max - 1) == Tokens(u[1..], max - 1);
        FewTokens(u[1..], max - 1);
      }
    }
  }

  /** What follows the last parenthesis is shorter than what follows the first one. */
  lemma TailIsShort(pid: nat, a: string)
    ensures var tail := Tail(Digits(pid) + " (" + a); tail.Some? ==> |tail.value| < |a|
  {
    FirstParenthesis(Digits(pid) + " ", a);
    assert Digits(pid) + " (" + a == (Digits(pid) + " ") + "(" + a;
    assert ("(" + a)[1..] == a;
  }

  lemma NameWithNewline(pid: nat, comm: string, fields: seq<string>)
    requires !OneLine(comm) && |comm| < 2 * FIELDS_NEEDED && |Render(pid, comm, fields)| < LINE_SIZE
    ensures Parsed(Render(pid, comm, fields)) == None
  {
    var a, b := FirstNewline(comm);
    var first := Digits(pid) + " (" + a;
    assert Render(pid, comm, fields) == first + "\n" + (b + ")" + (" " + Line(fields)));
    GetsOneLine(first, b + ")" + (" " + Line(fields)), LINE_SIZE);
    TailIsShort(pid, a + "\n");
    assert first + "\n" == Digits(pid) + " (" + (a + "\n");
    var tail := Tail(first + "\n");
    if tail.Some? {
      FewTokens(tail.value, MAX_FIELDS);
    }
  }

  lemma TokenValue(fields: seq<string>, tokens: seq<string>, i: nat, n: int)
    requires i < |tokens| <= |fields| && PointsTo(tokens, fields, i) && fields[i] == Print(n)
    ensures -TWO_63 <= n < TWO_63 ==> StrToL(tokens[i]) == n
    ensures 0 <= n < TWO_64 ==> StrToUll(tokens[i]) == n
  {
    FieldValue(fields, i, n);
  }

  lemma StatFromTokens(fields: seq<string>, stat: Stat, tokens: seq<string>)
    requires Describes(fields, stat) && PointTo(tokens, fields, MAX_FIELDS)
    ensures |tokens| >= FIELDS_NEEDED && tokens[0] != [] && StatOf(tokens) == stat
  {
    assert PointsTo(tokens, fields, 0) && fields[0..] == fields && tokens[0][0] == stat.state;
    CpuTimes(fields, stat, tokens);
    TokenValue(fields, tokens, 1, stat.ppid);
    TokenValue(fields, tokens, 15, stat.priority);
    TokenValue(fields, tokens, 16, stat.nice);
    TokenValue(fields, tokens, 17, stat.threads);
    TokenValue(fields, tokens, 20, stat.vsize);
    TokenValue(fields, tokens, 21, stat.rssPages);
  }

  lemma CpuTimes(fields: seq<string>, stat: Stat, tokens: seq<string>)
    requires Describes(fields, stat) && PointTo(tokens, fields, MAX_FIELDS)
    ensures |tokens| >= FIELDS_NEEDED
    ensures StrToUll(tokens[11]) == stat.utime && StrToUll(tokens[12]) == stat.stime
    ensures StrToUll(tokens[13]) == stat.cutime && StrToUll(tokens[14]) == stat.cstime
  {
    TokenValue(fields, tokens, 11, stat.utime);
    TokenValue(fields, tokens, 12, stat.stime);
    TokenValue(fields, tokens, 13, stat.cutime);
    TokenValue(fields, tokens, 14, stat.cstime);
  }
}
