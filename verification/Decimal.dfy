/** Decimal notation: printing and parsing naturals and integers. */
module Decimal {
  import opened Common

  predicate IsDigit(c: char) { '0' <= c <= '9' }

  function DigitChar(d: nat): char
    requires d < 10
  {
    '0' + d as char
  }

  function DigitValue(c: char): nat
    requires IsDigit(c)
  {
    (c - '0') as nat
  }

  /** `str(n)` for a natural number. */
  function Print(n: nat): (s: string)
    ensures s != "" && AllDigits(s)
  {
    if n < 10 then [DigitChar(n)] else Print(n / 10) + [DigitChar(n % 10)]
  }

  predicate AllDigits(s: string) { forall i :: 0 <= i < |s| ==> IsDigit(s[i]) }

  /** `int(s)` for a string of digits. */
  function Value(s: string): nat
    requires AllDigits(s)
  {
    if s == "" then 0 else 10 * Value(s[..|s| - 1]) + DigitValue(s[|s| - 1])
  }

  /** The pattern `[1-9][0-9]*`. */
  predicate IsPositiveNumeral(s: string) { s != "" && AllDigits(s) && s[0] != '0' }

  lemma {:induction false} ValueOfPrint(n: nat)
    ensures Value(Print(n)) == n
    ensures n > 0 ==> IsPositiveNumeral(Print(n))
  {
    if n >= 10 {
      ValueOfPrint(n / 10);
      var s := Print(n);
      assert s[..|s| - 1] == Print(n / 10);
      assert s[0] == Print(n / 10)[0];
    }
  }

  lemma {:induction false} PrintOfValue(s: string)
    requires IsPositiveNumeral(s)
    ensures Value(s) > 0 && Print(Value(s)) == s
  {
    var init := s[..|s| - 1];
    if init != "" {
      PrintOfValue(init);
      assert Value(s) / 10 == Value(init) && Value(s) % 10 == DigitValue(s[|s| - 1]);
    } else {
      assert Value(init) == 0;
      assert s == [s[0]];
    }
  }

  /** `str(n)`. */
  function PrintInt(n: int): string { if n < 0 then "-" + Print(-n) else Print(n) }

  function Signed(negative: bool, n: nat): int { if negative then 0 - n else n }

  // ---- Decimal notation with a fraction and an exponent ----------------------------------

  /** How many digits a string starts with. */
  function DigitRun(s: string): (n: nat)
    ensures n <= |s| && AllDigits(s[..n]) && (n < |s| ==> !IsDigit(s[n]))
  {
    if s == "" || !IsDigit(s[0]) then 0 else 1 + DigitRun(s[1..])
  }

  /** The number (-1)^negative * coefficient * 10^exponent. */
  datatype DecimalNumber = DecimalNumber(negative: bool, coefficient: nat, exponent: int)

  function IsSign(s: string): bool { s != "" && (s[0] == '-' || s[0] == '+') }

  function Unsigned(s: string): string { if IsSign(s) then s[1..] else s }

  function Negative(s: string): bool { IsSign(s) && s[0] == '-' }

  /** An optional exponent part; None is malformed. */
  function ParseExponent(s: string): Option<int> {
    if s == "" then Some(0)
    else if s[0] != 'e' && s[0] != 'E' then None
    else
      var digits := Unsigned(s[1..]);
      if digits == "" || !AllDigits(digits) then None else Some(Signed(Negative(s[1..]), Value(digits)))
  }

  /** Digits, an optional fraction and an optional exponent, after the sign. */
  function ParseUnsigned(negative: bool, s: string): Option<DecimalNumber> {
    var n := DigitRun(s);
    var dotted := n < |s| && s[n] == '.';
    var fraction := if dotted then DigitRun(s[n + 1..]) else 0;
    var digits := s[..n] + (if dotted then s[n + 1..][..fraction] else "");
    var exponent := ParseExponent(if dotted then s[n + 1..][fraction..] else s[n..]);
    if digits == "" || exponent.None? then None
    else
      assert AllDigits(digits);
      Some(DecimalNumber(negative, Value(digits), exponent.value - fraction))
  }

  function WithoutUnderscores(s: string): string {
    if s == "" then "" else (if s[0] == '_' then "" else [s[0]]) + WithoutUnderscores(s[1..])
  }

  function PowerOfTen(n: nat): (p: nat)
    ensures p > 0
  {
    if n == 0 then 1 else 10 * PowerOfTen(n - 1)
  }

  /** The integer a decimal number is, if it is one. */
  function IntegerOf(d: DecimalNumber): Option<int> {
    if d.exponent >= 0 then Some(Signed(d.negative, d.coefficient * PowerOfTen(d.exponent)))
    else
      var unit := PowerOfTen(-d.exponent);
      if d.coefficient % unit == 0 then Some(Signed(d.negative, d.coefficient / unit)) else None
  }

  lemma {:induction false} RunOfDigits(s: string)
    requires AllDigits(s)
    ensures DigitRun(s) == |s|
  {
    if s != "" { RunOfDigits(s[1..]); }
  }

  // ---- The notation, as it is written ----------------------------------------------------

  datatype Exponent = Exponent(mark: char, sign: string, digits: string)

  /** A sign, whole digits, maybe a point with further digits, maybe an exponent. */
  datatype Notation = Notation(sign: string, whole: string, fraction: Option<string>, exponent: Option<Exponent>)

  predicate SignText(s: string) { s == "" || s == "+" || s == "-" }

  predicate ExponentOk(e: Exponent) { (e.mark == 'e' || e.mark == 'E') && SignText(e.sign) && e.digits != "" && AllDigits(e.digits) }

  predicate WellFormed(n: Notation) {
    && SignText(n.sign) && AllDigits(n.whole) && (n.fraction.Some? ==> AllDigits(n.fraction.value))
    && (n.whole != "" || (n.fraction.Some? && n.fraction.value != ""))
    && (n.exponent.Some? ==> ExponentOk(n.exponent.value))
  }

  function WrittenExponent(e: Option<Exponent>): string {
    if e.None? then "" else [e.value.mark] + e.value.sign + e.value.digits
  }

  function WrittenFraction(f: Option<string>): string { if f.None? then "" else "." + f.value }

  function Written(n: Notation): string { n.sign + (n.whole + (WrittenFraction(n.fraction) + WrittenExponent(n.exponent))) }

  /** The digits without the point, scaled back by the digits after it and on by the exponent. */
  function Meant(n: Notation): DecimalNumber
    requires WellFormed(n)
  {
    var fraction := OrElse(n.fraction, "");
    var power: int := if n.exponent.None? then 0 else Value(n.exponent.value.digits);
    DecimalNumber(n.sign == "-", Value(n.whole + fraction),
                  (if n.exponent.Some? && n.exponent.value.sign == "-" then 0 - power else power) - |fraction|)
  }

  lemma {:induction false} DigitsThen(digits: string, rest: string)
    requires AllDigits(digits) && (rest == "" || !IsDigit(rest[0]))
    ensures DigitRun(digits + rest) == |digits|
  {
    if digits == "" {
      assert digits + rest == rest;
    } else {
      assert (digits + rest)[1..] == digits[1..] + rest;
      DigitsThen(digits[1..], rest);
    }
  }

  lemma SignThen(sign: string, rest: string)
    requires SignText(sign) && rest != "" && (IsDigit(rest[0]) || rest[0] == '.')
    ensures Unsigned(sign + rest) == rest && (Negative(sign + rest) <==> sign == "-")
  {
    if sign == "" { assert sign + rest == rest; }
  }

  lemma ExponentReads(e: Option<Exponent>)
    requires e.Some? ==> ExponentOk(e.value)
    ensures ParseExponent(WrittenExponent(e)) ==
            Some(if e.None? then 0 else if e.value.sign == "-" then 0 - Value(e.value.digits) else Value(e.value.digits))
  {
    if e.Some? {
      assert WrittenExponent(e)[1..] == e.value.sign + e.value.digits;
      assert IsDigit(e.value.digits[0]);
      SignThen(e.value.sign, e.value.digits);
    }
  }

  lemma PartsAreFound(whole: string, fraction: Option<string>, tail: string)
    requires AllDigits(whole) && (fraction.Some? ==> AllDigits(fraction.value))
    requires tail == "" || (!IsDigit(tail[0]) && tail[0] != '.')
    ensures var s := whole + (WrittenFraction(fraction) + tail);
            && DigitRun(s) == |whole| && s[..|whole|] == whole && s[|whole|..] == WrittenFraction(fraction) + tail
            && (fraction.Some? ==> |whole| < |s| && s[|whole|] == '.' && s[|whole| + 1..] == fraction.value + tail
                                   && DigitRun(fraction.value + tail) == |fraction.value|)
            && (fraction.None? ==> |whole| == |s| || s[|whole|] != '.')
  {
    hide DigitRun, WrittenFraction, AllDigits;
    var rest := WrittenFraction(fraction) + tail;
    FractionReads(fraction, tail);
    DigitsThen(whole, rest);
    SplitsBack(whole, rest);
    if fraction.Some? { DigitsThen(fraction.value, tail); }
  }

  lemma FractionReads(fraction: Option<string>, tail: string)
    requires tail == "" || (!IsDigit(tail[0]) && tail[0] != '.')
    ensures var rest := WrittenFraction(fraction) + tail;
            && (rest == "" || !IsDigit(rest[0]))
            && (fraction.Some? ==> rest != "" && rest[0] == '.' && rest[1..] == fraction.value + tail)
            && (fraction.None? ==> rest == tail)
  {
    if fraction.Some? { assert (WrittenFraction(fraction) + tail)[1..] == fraction.value + tail; }
  }

  lemma UnsignedIsRead(negative: bool, whole: string, fraction: Option<string>, tail: string)
    requires AllDigits(whole) && (fraction.Some? ==> AllDigits(fraction.value))
    requires tail == "" || (!IsDigit(tail[0]) && tail[0] != '.')
    requires whole + OrElse(fraction, "") != "" && ParseExponent(tail).Some?
    ensures ParseUnsigned(negative, whole + (WrittenFraction(fraction) + tail))
            == Some(DecimalNumber(negative, Value(whole + OrElse(fraction, "")),
                                  ParseExponent(tail).value - |OrElse(fraction, "")|))
  {
    hide ParseExponent, Value, DigitRun, WrittenFraction;
    PartsAreFound(whole, fraction, tail);
    var s := whole + (WrittenFraction(fraction) + tail);
    if fraction.Some? {
      var after := fraction.value + tail;
      assert after[..|fraction.value|] == fraction.value && after[|fraction.value|..] == tail;
    } else {
      assert s[|whole|..] == tail by { NoFraction(tail); }
      assert whole + "" == whole;
    }
  }

  lemma NoFraction(tail: string)
    ensures WrittenFraction(None) + tail == tail
  {
  }

  /** Every number in this notation is read as the number it means. */
  lemma NotationIsRead(n: Notation)
    requires WellFormed(n)
    ensures ParseUnsigned(Negative(Written(n)), Unsigned(Written(n))) == Some(Meant(n))
  {
    hide ParseExponent, Value, ParseUnsigned;
    var tail := WrittenExponent(n.exponent);
    ExponentReads(n.exponent);
    assert n.whole != "" ==> IsDigit(n.whole[0]);
    SignThen(n.sign, n.whole + (WrittenFraction(n.fraction) + tail));
    UnsignedIsRead(n.sign == "-", n.whole, n.fraction, tail);
  }

  /** Whatever is read is written in this notation. */
  lemma ReadIsNotation(s: string) returns (n: Notation)
    requires ParseUnsigned(Negative(s), Unsigned(s)).Some?
    ensures WellFormed(n) && Written(n) == s
  {
    var sign, body := if IsSign(s) then s[..1] else "", Unsigned(s);
    assert s == sign + body;
    n := UnsignedNotation(Negative(s), body, sign);
  }

  lemma DottedParts(body: string, w: nat, f: nat)
    requires w < |body| && body[w] == '.' && f <= |body| - w - 1
    ensures body[..w] + (("." + body[w + 1..][..f]) + body[w + 1..][f..]) == body
  {
    var after := body[w + 1..];
    assert after[..f] + after[f..] == after;
    Regroup(".", after[..f], after[f..]);
    assert body[w..] == "." + after;
    assert body[..w] + body[w..] == body;
  }

  lemma UnsignedNotation(negative: bool, body: string, sign: string) returns (n: Notation)
    requires ParseUnsigned(negative, body).Some? && SignText(sign)
    ensures WellFormed(n) && Written(n) == sign + body
  {
    hide ParseExponent, Value, DigitRun, WrittenExponent, ExponentOk, AllDigits;
    var w := DigitRun(body);
    if w < |body| && body[w] == '.' {
      var after := body[w + 1..];
      var f := DigitRun(after);
      var exponent := ExponentOf(after[f..]);
      n := Notation(sign, body[..w], Some(after[..f]), exponent);
      DottedParts(body, w, f);
    } else {
      var exponent := ExponentOf(body[w..]);
      n := Notation(sign, body[..w], None, exponent);
      NoFraction(body[w..]);
      assert body == body[..w] + body[w..];
    }
  }

  lemma ExponentOf(s: string) returns (e: Option<Exponent>)
    requires ParseExponent(s).Some?
    ensures (e.Some? ==> ExponentOk(e.value)) && WrittenExponent(e) == s
  {
    if s == "" {
      e := None;
    } else {
      var rest := s[1..];
      e := Some(Exponent(s[0], if IsSign(rest) then rest[..1] else "", Unsigned(rest)));
      assert rest == e.value.sign + e.value.digits;
      assert s == [s[0]] + rest;
    }
  }

  /** Decimal positions count ten times each other, and the digits are 0 to 9 in this order. */
  lemma PlacesCountTenfold(s: string, c: char, d: nat)
    requires AllDigits(s) && d < 10 && c == "0123456789"[d]
    ensures AllDigits(s + [c]) && Value(s + [c]) == 10 * Value(s) + d && Value("") == 0
  {
    assert (s + [c])[..|s|] == s;
  }
}
