/** The string operations the runtime borrows from its language: split, join, int and str. */
module Strings {
  import opened Common

  // ------------------------------------------------------------------ split and join

  /** `s.split(sep)` for a one-character separator: never empty. */
  function Split(s: string, sep: char): (parts: seq<string>)
    ensures parts != []
  {
    if s == "" then [""]
    else
      var rest := Split(s[1..], sep);
      if s[0] == sep then [""] + rest else [[s[0]] + rest[0]] + rest[1..]
  }

  /** `sep.join(parts)`. */
  function Join(parts: seq<string>, sep: char): string {
    if parts == [] then ""
    else if |parts| == 1 then parts[0]
    else parts[0] + [sep] + Join(parts[1..], sep)
  }

  predicate Free(parts: seq<string>, sep: char) {
    forall i :: 0 <= i < |parts| ==> sep !in parts[i]
  }

  lemma {:induction false} SplitPiece(s: string, rest: string, sep: char)
    requires sep !in s
    ensures Split(s, sep) == [s]
    ensures Split(s + [sep] + rest, sep) == [s] + Split(rest, sep)
  {
    var all := s + [sep] + rest;
    if s == "" {
      assert all[1..] == rest;
    } else {
      SplitPiece(s[1..], rest, sep);
      assert all[1..] == s[1..] + [sep] + rest;
      assert [s[0]] + s[1..] == s;
    }
  }

  /** Splitting undoes joining when no part contains the separator. */
  lemma {:induction false} SplitJoin(parts: seq<string>, sep: char)
    requires parts != [] && Free(parts, sep)
    ensures Split(Join(parts, sep), sep) == parts
  {
    if |parts| == 1 {
      SplitPiece(parts[0], "", sep);
    } else {
      SplitJoin(parts[1..], sep);
      SplitPiece(parts[0], Join(parts[1..], sep), sep);
    }
  }

  // ------------------------------------------------------------------ int and str

  predicate IsDigit(c: char) { '0' <= c <= '9' }

  function DigitValue(c: char): nat
    requires IsDigit(c)
  {
    c as int - '0' as int
  }

  function DigitChar(d: nat): (c: char)
    requires d < 10
    ensures IsDigit(c) && DigitValue(c) == d
  {
    ('0' as int + d) as char
  }

  /** Without a last underscore. */
  function Spared(s: string): string {
    if s != "" && s[|s| - 1] == '_' then s[..|s| - 1] else s
  }

  function WithDigit(high: Option<nat>, c: char): Option<nat>
    requires IsDigit(c)
  {
    if high.None? then None else Some(10 * high.value + DigitValue(c))
  }

  /** Digits, with single underscores allowed between them. */
  function ParseNat(s: string): Option<nat>
    decreases |s|
  {
    if s == "" || !IsDigit(s[|s| - 1]) then None
    else
      var front, last := s[..|s| - 1], s[|s| - 1];
      if front == "" then Some(DigitValue(last)) else WithDigit(ParseNat(Spared(front)), last)
  }

  predicate IsSpace(c: char) { c == ' ' || '\t' <= c <= '\r' }

  function TrimLeft(s: string): string {
    if s != "" && IsSpace(s[0]) then TrimLeft(s[1..]) else s
  }

  function TrimRight(s: string): string
    decreases |s|
  {
    if s != "" && IsSpace(s[|s| - 1]) then TrimRight(s[..|s| - 1]) else s
  }

  function Signed(negative: bool, n: Option<nat>): Option<int> {
    match n
    case None => None
    case Some(v) =>
      var i: int := v;
      Some(if negative then -i else i)
  }

  /** `int(s)` over ASCII; None is ValueError. */
  function ParseInt(s: string): Option<int> {
    var t := TrimRight(TrimLeft(s));
    if t != "" && (t[0] == '-' || t[0] == '+') then Signed(t[0] == '-', ParseNat(t[1..]))
    else Signed(false, ParseNat(t))
  }

  function Digits(n: nat): (s: string)
    ensures s != "" && forall i :: 0 <= i < |s| ==> IsDigit(s[i])
  {
    (if n < 10 then "" else Digits(n / 10)) + [DigitChar(n % 10)]
  }

  /** `str(n)`. */
  function Decimal(n: int): string {
    if n < 0 then "-" + Digits(-n) else Digits(n)
  }

  lemma {:induction false} ParseDigits(n: nat)
    ensures ParseNat(Digits(n)) == Some(n)
  {
    var s := Digits(n);
    if n >= 10 {
      ParseDigits(n / 10);
      assert s[..|s| - 1] == Digits(n / 10);
    }
  }

  lemma TrimNothing(s: string)
    requires s != "" && !IsSpace(s[0]) && !IsSpace(s[|s| - 1])
    ensures TrimRight(TrimLeft(s)) == s
  {
  }

  lemma DigitNoSpace(c: char)
    requires IsDigit(c) || c == '-'
    ensures !IsSpace(c)
  {
  }

  /** Reading a printed integer gives it back, so printing is injective. */
  lemma ParseDecimal(n: int)
    ensures ParseInt(Decimal(n)) == Some(n)
  {
    if n < 0 { ParseNegative(-n, Digits(-n)); } else { ParseNatural(n); }
  }

  lemma ParseNatural(n: nat)
    ensures ParseInt(Digits(n)) == Some(n)
  {
    var s := Digits(n);
    assert IsDigit(s[0]) && IsDigit(s[|s| - 1]);
    DigitNoSpace(s[0]);
    DigitNoSpace(s[|s| - 1]);
    TrimNothing(s);
    ParseDigits(n);
  }

  lemma ParseMinus(d: string)
    requires d != "" && IsDigit(d[|d| - 1])
    ensures ParseInt("-" + d) == Signed(true, ParseNat(d))
  {
    var s := "-" + d;
    assert s[0] == '-' && s[|s| - 1] == d[|d| - 1] && s[1..] == d;
    DigitNoSpace(s[0]);
    DigitNoSpace(s[|s| - 1]);
    TrimNothing(s);
  }

  lemma ParseNegative(m: nat, d: string)
    requires d == Digits(m)
    ensures ParseInt("-" + d) == Signed(true, Some(m))
  {
    ParseDigits(m);
    ParseMinus(d);
  }

  /** A printed integer is made of digits and a minus sign. */
  lemma DecimalPlain(n: int, c: char)
    requires !IsDigit(c) && c != '-'
    ensures c !in Decimal(n)
  {
    var digits := Digits(if n < 0 then -n else n);
    assert forall k :: 0 <= k < |digits| ==> IsDigit(digits[k]);
  }

  /** Zero and the naturals print without a sign and without leading zeros, the others with a minus. */
  lemma {:induction false} DigitsLead(n: nat)
    ensures Digits(n)[0] == '0' <==> n == 0
  {
    if n >= 10 {
      DigitsLead(n / 10);
      assert Digits(n)[0] == Digits(n / 10)[0];
    }
  }

  lemma DecimalSigned(n: int)
    ensures Decimal(n)[0] == '-' <==> n < 0
    ensures Decimal(n)[0] == '0' <==> n == 0
  {
    if n >= 0 { DigitsLead(n); }
  }

  lemma DigitRead(s: string, c: char)
    requires s != "" && IsDigit(c)
    ensures ParseNat(s + [c]) == WithDigit(ParseNat(Spared(s)), c)
  {
    var t := s + [c];
    assert t[..|t| - 1] == s && t[|t| - 1] == c;
  }

  lemma NumberSpared(s: string)
    requires ParseNat(s).Some?
    ensures s != "" && Spared(s) == s && Spared(s + "_") == s
  {
    var t := s + "_";
    assert t[..|t| - 1] == s && t[|t| - 1] == '_';
  }

  /** One underscore between digits is passed over. */
  lemma UnderscoreSkipped(s: string, c: char)
    requires ParseNat(s).Some? && IsDigit(c)
    ensures ParseNat(s + "_" + [c]) == ParseNat(s + [c]) == WithDigit(ParseNat(s), c)
  {
    NumberSpared(s);
    DigitRead(s, c);
    DigitRead(s + "_", c);
  }

  predicate Blank(s: string) { forall i :: 0 <= i < |s| ==> s[i] in {' ', '\t', '\n', '\r', '\U{0B}', '\U{0C}'} }

  lemma {:induction false} TrimBlankLeft(blank: string, s: string)
    requires Blank(blank)
    ensures TrimLeft(blank + s) == TrimLeft(s)
  {
    if blank == "" {
      assert blank + s == s;
    } else {
      assert IsSpace(blank[0]) && (blank + s)[1..] == blank[1..] + s;
      TrimBlankLeft(blank[1..], s);
    }
  }

  lemma {:induction false} TrimBlankRight(s: string, blank: string)
    requires Blank(blank)
    ensures TrimRight(s + blank) == TrimRight(s)
    decreases |blank|
  {
    if blank == "" {
      assert s + blank == s;
    } else {
      var n := |blank| - 1;
      assert IsSpace(blank[n]) && (s + blank)[..|s + blank| - 1] == s + blank[..n] && (s + blank)[|s + blank| - 1] == blank[n];
      TrimBlankRight(s, blank[..n]);
    }
  }

  /** White space around a printed integer does not matter. */
  lemma ParseIgnoresBlanks(before: string, n: int, after: string)
    requires Blank(before) && Blank(after)
    ensures ParseInt(before + Decimal(n) + after) == Some(n)
  {
    var d := Decimal(n);
    assert before + d + after == before + (d + after);
    TrimBlankLeft(before, d + after);
    DigitNoSpace(d[0]);
    assert TrimLeft(d + after) == d + after && TrimLeft(d) == d;
    TrimBlankRight(d, after);
    ParseDecimal(n);
  }
}
