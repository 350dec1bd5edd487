/** Decimal text of 64-bit integers: what operator<< and std::to_string write, and how std::stoll and
    std::from_chars read it back. */
module Decimal {
  import opened Common

  const MIN64: int := -0x8000_0000_0000_0000
  const MAX64: int := 0x7fff_ffff_ffff_ffff

  predicate IsInt64(n: int) { MIN64 <= n <= MAX64 }

  // ---- Writing --------------------------------------------------------------------------------

  function DigitChar(d: nat): char
    requires d < 10
  {
    '0' + d as char
  }

  function Digits(n: nat): (s: string)
    ensures s != ""
  {
    if n < 10 then [DigitChar(n)] else Digits(n / 10) + [DigitChar(n % 10)]
  }

  function ToText(n: int): string { if n < 0 then "-" + Digits(-n) else Digits(n) }

  // ---- Reading --------------------------------------------------------------------------------

  predicate IsDigit(c: char) { '0' <= c <= '9' }

  predicate AllDigits(s: string) { forall i :: 0 <= i < |s| ==> IsDigit(s[i]) }

  function Value(s: string): nat
    requires AllDigits(s)
  {
    if s == "" then 0 else 10 * Value(s[..|s| - 1]) + (s[|s| - 1] as int - '0' as int)
  }

  /** How many digits a text starts with. */
  function Span(s: string): (n: nat)
    ensures n <= |s| && AllDigits(s[..n]) && (n < |s| ==> !IsDigit(s[n]))
  {
    if s == "" || !IsDigit(s[0]) then 0
    else
      var n := Span(s[1..]);
      assert s[..n + 1] == [s[0]] + s[1..][..n];
      n + 1
  }

  predicate IsSpace(c: char) { c == ' ' || '\t' <= c <= '\r' }

  function SkipSpace(s: string): string { if s != "" && IsSpace(s[0]) then SkipSpace(s[1..]) else s }

  function InRange(n: int): Option<int> { if IsInt64(n) then Some(n) else None }

  /** std::stoll in base 10: blanks, an optional sign, digits; what follows is ignored, no digits or a
      value out of range throws. */
  function Stoll(s: string): Option<int> {
    var t := SkipSpace(s);
    var signed := t != "" && (t[0] == '-' || t[0] == '+');
    var u := if signed then t[1..] else t;
    var n := Span(u);
    var value: int := Value(u[..n]);
    if n == 0 then None else InRange(if signed && t[0] == '-' then -value else value)
  }

  /** std::from_chars over the whole text: an optional minus sign and digits, nothing else. */
  function FromChars(s: string): Option<int> {
    var signed := s != "" && s[0] == '-';
    var u := if signed then s[1..] else s;
    var n := Span(u);
    var value: int := Value(u[..n]);
    if n == 0 || n != |u| then None else InRange(if signed then -value else value)
  }

  // ---- Round trips ----------------------------------------------------------------------------

  lemma {:induction false} DigitsValue(n: nat)
    ensures AllDigits(Digits(n)) && Value(Digits(n)) == n
  {
    if n >= 10 {
      DigitsValue(n / 10);
      var s := Digits(n);
      assert s[..|s| - 1] == Digits(n / 10);
    }
  }

  lemma {:induction false} SpanAll(s: string)
    requires AllDigits(s)
    ensures Span(s) == |s|
  {
    if s != "" { SpanAll(s[1..]); }
  }

  /** Reading the decimal digits of `n` gives `n`. */
  lemma DigitsSpan(n: nat)
    ensures var s := Digits(n); IsDigit(s[0]) && AllDigits(s) && Span(s) == |s| && s[..|s|] == s && Value(s) == n
  {}

  lemma StollUndoes(n: int)
    requires IsInt64(n)
    ensures Stoll(ToText(n)) == Some(n)
  {
    var m := if n < 0 then -n else n;
    DigitsSpan(m);
    var t := ToText(n);
    assert n < 0 ==> t[1..] == Digits(m);
    assert SkipSpace(t) == t;
  }

  lemma FromCharsUndoes(n: int)
    requires IsInt64(n)
    ensures FromChars(ToText(n)) == Some(n)
  {
    var m := if n < 0 then -n else n;
    DigitsSpan(m);
    assert n < 0 ==> ToText(n)[1..] == Digits(m);
  }

  // ---- Exactly what is read -------------------------------------------------------------------

  function Signed(negative: bool, value: int): int { if negative then -value else value }

  /** `sign` and the digits `d` are the text of `n`, which fits. */
  ghost predicate Numeral(sign: string, d: string, n: int) {
    (sign == "" || sign == "-") && d != "" && AllDigits(d) && IsInt64(n) && n == Signed(sign == "-", Value(d))
  }

  /** std::from_chars reads exactly an optional minus sign followed by digits, if the number fits. */
  lemma FromCharsExactly(s: string, n: int)
    ensures FromChars(s) == Some(n) <==> exists sign: string, d: string :: s == sign + d && Numeral(sign, d, n)
  {
    if FromChars(s) == Some(n) {
      var sign := if s != "" && s[0] == '-' then "-" else "";
      var d := s[|sign|..];
      assert d[..|d|] == d && s == sign + d;
      assert Numeral(sign, d, n);
    }
    if sign: string, d: string :| s == sign + d && Numeral(sign, d, n) {
      NumeralReads(s, sign, d, n);
    }
  }

  lemma NumeralReads(s: string, sign: string, d: string, n: int)
    requires s == sign + d && Numeral(sign, d, n)
    ensures FromChars(s) == Some(n)
  {
    assert IsDigit(d[0]) && s[|sign|..] == d && d[..|d|] == d;
    SpanAll(d);
  }

  ghost predicate Blank(s: string) { forall c :: c in s ==> IsSpace(c) }

  lemma {:induction false} SkipsBlank(blanks: string, s: string)
    requires Blank(blanks) && (s != "" ==> !IsSpace(s[0]))
    ensures SkipSpace(blanks + s) == s
  {
    if blanks == "" {
      assert blanks + s == s;
    } else {
      assert blanks[0] in blanks && (blanks + s)[1..] == blanks[1..] + s;
      SkipsBlank(blanks[1..], s);
    }
  }

  lemma {:induction false} BlankSkipped(s: string) returns (blanks: string)
    ensures Blank(blanks) && s == blanks + SkipSpace(s)
  {
    if s != "" && IsSpace(s[0]) {
      var more := BlankSkipped(s[1..]);
      blanks := [s[0]] + more;
    } else {
      blanks := "";
    }
  }

  lemma {:induction false} SpanStops(d: string, rest: string)
    requires AllDigits(d) && (rest != "" ==> !IsDigit(rest[0]))
    ensures Span(d + rest) == |d|
  {
    if d == "" {
      assert d + rest == rest;
    } else {
      assert (d + rest)[1..] == d[1..] + rest;
      SpanStops(d[1..], rest);
    }
  }

  /** How std::stoll takes a text apart. */
  ghost predicate Parts(s: string, blanks: string, sign: string, d: string, rest: string, n: int) {
    && s == blanks + (sign + (d + rest)) && Blank(blanks) && (sign == "" || sign == "-" || sign == "+")
    && d != "" && AllDigits(d) && (rest != "" ==> !IsDigit(rest[0]))
    && IsInt64(n) && n == Signed(sign == "-", Value(d))
  }

  lemma NotBlank(c: char)
    requires IsDigit(c) || c == '-' || c == '+'
    ensures !IsSpace(c)
  {}

  lemma PartsRead(s: string, blanks: string, sign: string, d: string, rest: string, n: int)
    requires Parts(s, blanks, sign, d, rest, n)
    ensures Stoll(s) == Some(n)
  {
    var t := sign + (d + rest);
    assert IsDigit(d[0]) && t[|sign|..] == d + rest && (d + rest)[..|d|] == d;
    assert t[0] == (if sign == "" then d[0] else sign[0]) && (IsDigit(t[0]) || t[0] == '-' || t[0] == '+');
    NotBlank(t[0]);
    SkipsBlank(blanks, t);
    SpanStops(d, rest);
  }

  /** The sign std::stoll sees, and what is left. */
  function SignOf(t: string): string { if t != "" && (t[0] == '-' || t[0] == '+') then [t[0]] else "" }

  lemma StollSplits(s: string, n: int)
    requires Stoll(s) == Some(n)
    ensures var t := SkipSpace(s);
            var u := t[|SignOf(t)|..];
            Span(u) > 0 && IsInt64(n) && n == Signed(SignOf(t) == "-", Value(u[..Span(u)]))
  {}

  lemma SignSplits(t: string)
    ensures var sign := SignOf(t);
            (sign == "" || sign == "-" || sign == "+") && |sign| <= |t| && t == sign + t[|sign|..]
  {}

  lemma Assemble(s: string, blanks: string, sign: string, u: string, k: nat, n: int)
    requires s == blanks + (sign + u) && Blank(blanks) && (sign == "" || sign == "-" || sign == "+")
    requires 0 < k <= |u| && AllDigits(u[..k]) && (k < |u| ==> !IsDigit(u[k]))
    requires IsInt64(n) && n == Signed(sign == "-", Value(u[..k]))
    ensures Parts(s, blanks, sign, u[..k], u[k..], n)
  {
    assert u == u[..k] + u[k..];
  }

  lemma PartsOf(s: string, n: int) returns (blanks: string, sign: string, d: string, rest: string)
    requires Stoll(s) == Some(n)
    ensures Parts(s, blanks, sign, d, rest, n)
  {
    StollSplits(s, n);
    blanks := BlankSkipped(s);
    var t := SkipSpace(s);
    sign := SignOf(t);
    var u := t[|sign|..];
    var k := Span(u);
    SignSplits(t);
    Assemble(s, blanks, sign, u, k, n);
    d, rest := u[..k], u[k..];
  }

  /** std::stoll reads exactly blanks, an optional sign and digits, whatever follows them, if the number fits. */
  lemma StollExactly(s: string, n: int)
    ensures Stoll(s) == Some(n)
       <==> exists blanks: string, sign: string, d: string, rest: string :: Parts(s, blanks, sign, d, rest, n)
  {
    if Stoll(s) == Some(n) {
      var blanks, sign, d, rest := PartsOf(s, n);
    }
    if blanks: string, sign: string, d: string, rest: string :| Parts(s, blanks, sign, d, rest, n) {
      PartsRead(s, blanks, sign, d, rest, n);
    }
  }

  /** The text of a number has no separator in it, and is never empty. */
  lemma TextIsPlain(n: int, c: char)
    requires !IsDigit(c) && c != '-'
    ensures ToText(n) != "" && c !in ToText(n)
  {
    DigitsValue(if n < 0 then -n else n);
  }
}
