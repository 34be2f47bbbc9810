/** Decimal numbers as printf writes them and strtol and strtoull read them. */
module Decimal {
  import opened CIntegers

  predicate IsDigit(c: char) { '0' <= c <= '9' }

  predicate IsSpace(c: char) {
    c == ' ' || c == '\t' || c == '\n' || c == '\r' || c == '\U{000B}' || c == '\U{000C}'
  }

  function Digit(d: nat): (c: char)
    requires d < 10
    ensures IsDigit(c) && DigitValue(c) == d
  {
    '0' + d as char
  }

  function DigitValue(c: char): nat
    requires IsDigit(c)
  {
    c as int - '0' as int
  }

  /** Digits of a number. */
  function Digits(n: nat): (s: string)
    ensures s != [] && forall i :: 0 <= i < |s| ==> IsDigit(s[i])
  {
    if n < 10 then [Digit(n)] else Digits(n / 10) + [Digit(n % 10)]
  }

  /** "%d" and "%ld". */
  function Print(n: int): (s: string)
    ensures s != []
    ensures forall i :: 0 <= i < |s| ==> IsDigit(s[i]) || s[i] == '-'
  {
    if n < 0 then "-" + Digits(-n) else Digits(n)
  }

  /** The number at the beginning of the text, after a first part with the given value. */
  function Value(s: string, first: nat): nat {
    if s != [] && IsDigit(s[0]) then Value(s[1..], 10 * first + DigitValue(s[0])) else first
  }

  function SkipSpace(s: string): string {
    if s != [] && IsSpace(s[0]) then SkipSpace(s[1..]) else s
  }

  /** The value of an optionally signed number at the beginning of the text. */
  function Signed(s: string): int {
    var t := SkipSpace(s);
    if t == [] then 0
    else if t[0] == '-' then 0 - Value(t[1..], 0)
    else if t[0] == '+' then Value(t[1..], 0)
    else Value(t, 0)
  }

  /** strtol in base 10: out of range values saturate. */
  function StrToL(s: string): CLong {
    var v := Signed(s);
    if v < -TWO_63 then -TWO_63 else if v >= TWO_63 then TWO_63 - 1 else v
  }

  /** strtoull in base 10: out of range values saturate, negative ones wrap around. */
  function StrToUll(s: string): CULong {
    var v := Signed(s);
    if v >= TWO_64 || v <= -TWO_64 then TWO_64 - 1 else U64(v)
  }

  /** The text does not go on with a digit. */
  predicate EndsNumber(rest: string) {
    rest == [] || !IsDigit(rest[0])
  }

  lemma {:induction false} ValueOfDigits(n: nat, rest: string)
    ensures Value(Digits(n) + rest, 0) == Value(rest, n)
  {
    if n < 10 {
      assert (Digits(n) + rest)[1..] == rest;
    } else {
      var last := [Digit(n % 10)];
      ValueOfDigits(n / 10, last + rest);
      assert Digits(n) + rest == Digits(n / 10) + (last + rest);
      assert (last + rest)[1..] == rest;
    }
  }

  /** Reading a printed number gives the number. */
  lemma PrintedNumber(n: int, rest: string)
    requires EndsNumber(rest)
    ensures Signed(Print(n) + rest) == n
  {
    var s := Print(n) + rest;
    if n < 0 {
      ValueOfDigits(-n, rest);
      assert s[1..] == Digits(-n) + rest;
    } else {
      ValueOfDigits(n, rest);
      assert s[0] == Digits(n)[0];
    }
  }

  /** Numbers that do not fit: strtol saturates, strtoull wraps negative ones around and saturates beyond its range. */
  lemma AnyNumber(n: int, rest: string)
    requires EndsNumber(rest)
    ensures StrToL(Print(n) + rest) == if n < -TWO_63 then -TWO_63 else if n < TWO_63 then n else TWO_63 - 1
    ensures 0 <= n < TWO_64 ==> StrToUll(Print(n) + rest) == n
    ensures -TWO_64 < n < 0 ==> StrToUll(Print(n) + rest) == n + TWO_64
    ensures n >= TWO_64 || n <= -TWO_64 ==> StrToUll(Print(n) + rest) == TWO_64 - 1
  {
    PrintedNumber(n, rest);
  }

  /** White space in front of a number, and a plus sign, do not count. */
  lemma LeadIsSkipped(lead: string, n: nat, rest: string)
    requires EndsNumber(rest) && forall i :: 0 <= i < |lead| ==> IsSpace(lead[i])
    ensures Signed(lead + (Print(n) + rest)) == n && Signed(lead + ("+" + Print(n) + rest)) == n
  {
    var plus := "+" + Print(n) + rest;
    SkipsSpaces(lead, Print(n) + rest);
    SkipsSpaces(lead, plus);
    ValueOfDigits(n, rest);
    assert plus[1..] == Digits(n) + rest;
  }

  lemma {:induction false} SkipsSpaces(lead: string, s: string)
    requires (forall i :: 0 <= i < |lead| ==> IsSpace(lead[i])) && (s != [] ==> !IsSpace(s[0]))
    ensures SkipSpace(lead + s) == s
  {
    if lead != [] {
      assert (lead + s)[1..] == lead[1..] + s;
      SkipsSpaces(lead[1..], s);
    } else {
      assert lead + s == s;
    }
  }
}
