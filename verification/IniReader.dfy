/** Reading a text in chunks (src/ini.c:252-275). */
module IniReader {
  import opened Options

  /** The next chunk: at most num - 1 characters, up to the end of a line. */
  function Chunk(text: string, num: nat): (r: string)
    ensures |r| <= |text| && r == text[..|r|] && (text != [] && num >= 2 ==> r != [])
    ensures num >= 1 ==> |r| <= num - 1
    ensures forall i :: 0 <= i < |r| - 1 ==> r[i] != '\n'
    ensures num >= 2 ==> |r| == |text| || |r| == num - 1 || r[|r| - 1] == '\n'
  {
    if num < 2 || text == [] then []
    else if text[0] == '\n' then ['\n']
    else [text[0]] + Chunk(text[1..], num - 1)
  }

  lemma NextCharacter(s: string, text: string, num: nat)
    requires num >= 2 && text != []
    ensures s + text == (s + [text[0]]) + text[1..]
    ensures s + Chunk(text, num) == (s + [text[0]]) + if text[0] == '\n' then [] else Chunk(text[1..], num - 1)
  {
  }

  /** ini_reader_string. */
  class StringContext {
    var text: string   // what is left

    constructor (text: string)
      ensures this.text == text
    {
      this.text := text;
    }

    method Read(num: nat) returns (str: Option<string>)
      modifies this
      ensures str == if old(text) == [] || num < 2 then None else Some(Chunk(old(text), num))
      ensures old(text) == (if str.Some? then str.value else []) + text
    {
      if text == [] || num < 2 {
        return None;
      }
      var n, s := num, "";
      ghost var all := text;
      while n > 1 && text != []
        invariant s + Chunk(text, n) == Chunk(all, num) && s + text == all && n >= 1
        decreases n
      {
        var c := text[0];
        NextCharacter(s, text, n);
        text := text[1..];
        s := s + [c];
        if c == '\n' {
          return Some(s);
        }
        n := n - 1;
      }
      return Some(s);
    }
  }

  /** The text as the reader delivers it. */
  function Chunks(text: string, num: nat): (r: seq<string>)
    requires num >= 2
  {
    if text == [] then [] else [Chunk(text, num)] + Chunks(text[|Chunk(text, num)|..], num)
  }

  function Concat(parts: seq<string>): string {
    if parts == [] then "" else parts[0] + Concat(parts[1..])
  }

  /** Nothing is lost or added. */
  lemma {:induction false} ChunksConcat(text: string, num: nat)
    requires num >= 2
    ensures Concat(Chunks(text, num)) == text
  {
    if text != [] {
      var n := |Chunk(text, num)|;
      ChunksConcat(text[n..], num);
      assert text == text[..n] + text[n..];
    }
  }

  /** A chunk is a line, or the part of a line that fits. */
  ghost predicate IsChunk(c: string, num: nat) {
    0 < |c| <= num - 1 && forall i :: 0 <= i < |c| - 1 ==> c[i] != '\n'
  }

  lemma {:induction false} ChunksAreLines(text: string, num: nat)
    requires num >= 2
    ensures forall k :: 0 <= k < |Chunks(text, num)| ==> IsChunk(Chunks(text, num)[k], num)
  {
    if text != [] {
      ChunksAreLines(text[|Chunk(text, num)|..], num);
    }
  }
}
