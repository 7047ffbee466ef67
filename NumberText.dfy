/**
  Text <-> number conversions that the calculator relies on.

  `ParseFloat` models JavaScript's global `parseFloat` on finite decimal literals:
  leading white space is skipped, an optional sign is read, then the LONGEST prefix
  that is a decimal literal (digits, an optional fraction, an optional exponent) is
  taken and the rest of the text is ignored; text with no such prefix is NaN (`None`).

  `ShowThousandths(k)` models `Number.prototype.toString` on the values that
  `tryConvert` produces, which are multiples of 1/1000: the shortest decimal, with
  no trailing zeros in the fraction and no decimal point for integers.
 */
module NumberText {
  import opened Wrappers

  // ---------------------------------------------------------------------------
  // Characters

  predicate IsDigit(c: char) { '0' <= c <= '9' }

  function DigitValue(c: char): (d: nat)
    requires IsDigit(c)
    ensures d < 10
  {
    c as int - '0' as int
  }

  function DigitChar(d: nat): (c: char)
    requires d < 10
    ensures IsDigit(c) && DigitValue(c) == d
  {
    (d + '0' as int) as char
  }

  predicate AllDigits(s: string) { forall i :: 0 <= i < |s| ==> IsDigit(s[i]) }

  /** The StrWhiteSpaceChar set of ECMAScript: white space and line terminators. */
  predicate IsStrWhiteSpace(c: char) {
    c in {'\t', '\n', '\U{000B}', '\U{000C}', '\r', ' ', '\U{00A0}', '\U{1680}',
          '\U{2028}', '\U{2029}', '\U{202F}', '\U{205F}', '\U{3000}', '\U{FEFF}'}
    || '\U{2000}' <= c <= '\U{200A}'
  }

  predicate IsSign(c: char) { c == '+' || c == '-' }

  // ---------------------------------------------------------------------------
  // Scanning

  /** Length of the longest prefix of `s` made of decimal digits. */
  function DigitRun(s: string): (n: nat)
    ensures n <= |s|
    ensures AllDigits(s[..n])
    ensures n < |s| ==> !IsDigit(s[n])
  {
    if |s| > 0 && IsDigit(s[0]) then
      var m := DigitRun(s[1..]);
      assert s[..1 + m] == [s[0]] + s[1..][..m];
      1 + m
    else 0
  }

  /** Length of the longest prefix of `s` made of white space. */
  function LeadingSpace(s: string): (n: nat)
    ensures n <= |s|
    ensures forall i :: 0 <= i < n ==> IsStrWhiteSpace(s[i])
    ensures n < |s| ==> !IsStrWhiteSpace(s[n])
  {
    if |s| > 0 && IsStrWhiteSpace(s[0]) then
      var m := LeadingSpace(s[1..]);
      assert forall i :: 1 <= i < 1 + m ==> s[i] == s[1..][i - 1];
      1 + m
    else 0
  }

  /** The value of a string of decimal digits, most significant first. */
  function DigitsValue(s: string): nat
    requires AllDigits(s)
  {
    if s == [] then 0 else 10 * DigitsValue(s[..|s| - 1]) + DigitValue(s[|s| - 1])
  }

  function Pow10(n: nat): (p: nat)
    ensures p >= 1
  {
    if n == 0 then 1 else 10 * Pow10(n - 1)
  }

  /** 10 raised to an integer power, as a real. */
  function Scale10(e: int): (r: real)
    ensures r > 0.0
  {
    if e >= 0 then Pow10(e) as real else 1.0 / Pow10(-e) as real
  }

  /** The parts of a decimal literal that `parseFloat` recognised. */
  datatype Literal = Literal(negative: bool, whole: string, fraction: string, exponent: int)

  /**
    The exponent denoted by `tail` when it starts with `e` or `E`, an optional sign and
    at least one digit; otherwise 0 (the exponent marker is then not part of the literal).
   */
  function ExponentOf(tail: string): int {
    if |tail| > 0 && (tail[0] == 'e' || tail[0] == 'E') then
      var w := tail[1..];
      var digits := if |w| > 0 && IsSign(w[0]) then w[1..] else w;
      var n := DigitRun(digits);
      if n == 0 then 0
      else if |w| > 0 && w[0] == '-' then -(DigitsValue(digits[..n]) as int)
      else DigitsValue(digits[..n])
    else 0
  }

  /** True when an unsigned decimal literal begins at the start of `u`. */
  predicate StartsNumber(u: string) {
    (|u| > 0 && IsDigit(u[0])) || (|u| > 1 && u[0] == '.' && IsDigit(u[1]))
  }

  /** The longest unsigned decimal literal at the start of `u`, if any. */
  function ScanUnsigned(negative: bool, u: string): (r: Option<Literal>)
    ensures r.None? <==> !StartsNumber(u)
    ensures r.Some? ==> r.value.negative == negative
    ensures r.Some? ==> AllDigits(r.value.whole) && AllDigits(r.value.fraction)
  {
    var whole := u[..DigitRun(u)];
    var rest := u[|whole|..];
    var fraction := if |rest| > 0 && rest[0] == '.' then rest[1..][..DigitRun(rest[1..])] else [];
    var tail := if |rest| > 0 && rest[0] == '.' then rest[1 + |fraction|..] else rest;
    if whole == [] && fraction == [] then None
    else Some(Literal(negative, whole, fraction, ExponentOf(tail)))
  }

  /** The text after leading white space and an optional sign. */
  function Unsigned(s: string): string {
    var t := s[LeadingSpace(s)..];
    if |t| > 0 && IsSign(t[0]) then t[1..] else t
  }

  /** The literal `parseFloat` reads from `s`, if any. */
  function ScanLiteral(s: string): (r: Option<Literal>)
    ensures r.None? <==> !StartsNumber(Unsigned(s))
    ensures r.Some? ==> AllDigits(r.value.whole) && AllDigits(r.value.fraction)
  {
    var t := s[LeadingSpace(s)..];
    ScanUnsigned(|t| > 0 && t[0] == '-', Unsigned(s))
  }

  function LiteralValue(lit: Literal): real
    requires AllDigits(lit.whole) && AllDigits(lit.fraction)
  {
    var mantissa := DigitsValue(lit.whole) as real
                    + DigitsValue(lit.fraction) as real / Pow10(|lit.fraction|) as real;
    var magnitude := mantissa * Scale10(lit.exponent);
    if lit.negative then -magnitude else magnitude
  }

  /**
    `parseFloat` on finite decimal literals: NaN (`None`) exactly when, after white space
    and an optional sign, the text starts neither with a digit nor with `.` and a digit.
   */
  function ParseFloat(s: string): (r: Option<real>)
    ensures r.None? <==> !StartsNumber(Unsigned(s))
  {
    match ScanLiteral(s)
    case None => None
    case Some(lit) => Some(LiteralValue(lit))
  }

  // ---------------------------------------------------------------------------
  // Showing multiples of 1/1000

  /** Decimal digits of `n`, most significant first, with no leading zeros. */
  function NatToString(n: nat): (s: string)
    ensures |s| > 0 && AllDigits(s)
    ensures |s| > 1 ==> s[0] != '0'
  {
    if n < 10 then [DigitChar(n)] else NatToString(n / 10) + [DigitChar(n % 10)]
  }

  /** The digits of `f` thousandths after the decimal point, without trailing zeros. */
  function FractionDigits(f: nat): (s: string)
    requires 0 < f < 1000
    ensures AllDigits(s) && 1 <= |s| <= 3
    ensures s[|s| - 1] != '0'
  {
    if f % 100 == 0 then [DigitChar(f / 100)]
    else if f % 10 == 0 then [DigitChar(f / 100), DigitChar(f / 10 % 10)]
    else [DigitChar(f / 100), DigitChar(f / 10 % 10), DigitChar(f % 10)]
  }

  /** The fraction part of `f` thousandths: nothing for 0, else a point and its digits. */
  function FractionText(f: nat): (s: string)
    requires f < 1000
    ensures f == 0 <==> s == []
  {
    if f == 0 then [] else ['.'] + FractionDigits(f)
  }

  function Abs(k: int): nat { if k < 0 then -k else k }

  /** The canonical decimal text of the number `k / 1000`. */
  function ShowThousandths(k: int): (s: string)
    ensures |s| > 0
  {
    (if k < 0 then "-" else "") + NatToString(Abs(k) / 1000) + FractionText(Abs(k) % 1000)
  }

  // ---------------------------------------------------------------------------
  // Lemmas

  lemma DigitsValueSnoc(s: string, c: char)
    requires AllDigits(s) && IsDigit(c)
    ensures AllDigits(s + [c])
    ensures DigitsValue(s + [c]) == 10 * DigitsValue(s) + DigitValue(c)
  {
    assert (s + [c])[..|s|] == s;
  }

  lemma {:induction false} NatToStringValue(n: nat)
    ensures DigitsValue(NatToString(n)) == n
  {
    if n >= 10 {
      NatToStringValue(n / 10);
      DigitsValueSnoc(NatToString(n / 10), DigitChar(n % 10));
    }
  }

  /** A run of digits followed by something that is not a digit is scanned exactly. */
  lemma {:induction false} DigitRunStops(digits: string, rest: string)
    requires AllDigits(digits)
    requires rest == [] || !IsDigit(rest[0])
    ensures DigitRun(digits + rest) == |digits|
  {
    if digits != [] {
      assert (digits + rest)[1..] == digits[1..] + rest;
      DigitRunStops(digits[1..], rest);
    }
  }

  /** The three decimal digits of a number of thousandths. */
  lemma ThousandthsDigits(f: nat)
    requires f < 1000
    ensures f / 100 < 10 && f / 10 % 10 < 10
    ensures f == 100 * (f / 100) + 10 * (f / 10 % 10) + f % 10
    ensures f % 100 == 0 ==> f == 100 * (f / 100)
    ensures f % 10 == 0 ==> f == 100 * (f / 100) + 10 * (f / 10 % 10)
  {
    var g := f / 10;
    assert f == 10 * g + f % 10;
    assert g == 10 * (g / 10) + g % 10;
    assert f / 100 == g / 10;
  }

  lemma DigitsValueTwo(a: nat, b: nat)
    requires a < 10 && b < 10
    ensures DigitsValue([DigitChar(a), DigitChar(b)]) == 10 * a + b
  {
    DigitsValueSnoc([DigitChar(a)], DigitChar(b));
    assert [DigitChar(a)] + [DigitChar(b)] == [DigitChar(a), DigitChar(b)];
    DigitsValueSnoc([], DigitChar(a));
    assert [] + [DigitChar(a)] == [DigitChar(a)];
  }

  lemma DigitsValueThree(a: nat, b: nat, c: nat)
    requires a < 10 && b < 10 && c < 10
    ensures DigitsValue([DigitChar(a), DigitChar(b), DigitChar(c)]) == 100 * a + 10 * b + c
  {
    DigitsValueTwo(a, b);
    DigitsValueSnoc([DigitChar(a), DigitChar(b)], DigitChar(c));
    assert [DigitChar(a), DigitChar(b)] + [DigitChar(c)] == [DigitChar(a), DigitChar(b), DigitChar(c)];
  }

  /** The digits of `FractionDigits(f)` denote `f / 1000`. */
  lemma FractionValue(f: nat)
    requires 0 < f < 1000
    ensures DigitsValue(FractionDigits(f)) as real / Pow10(|FractionDigits(f)|) as real
            == f as real / 1000.0
  {
    var a, b, c := f / 100, f / 10 % 10, f % 10;
    ThousandthsDigits(f);
    if f % 100 == 0 {
      DigitsValueSnoc([], DigitChar(a));
      assert [] + [DigitChar(a)] == FractionDigits(f);
      assert Pow10(1) == 10;
      assert (f as real) == 100.0 * (a as real);
    } else if f % 10 == 0 {
      DigitsValueTwo(a, b);
      assert Pow10(2) == 100;
      assert (f as real) == 10.0 * ((10 * a + b) as real);
    } else {
      DigitsValueThree(a, b, c);
      assert Pow10(3) == 1000;
    }
  }

  /** The scanner reads the unsigned text of `q + f / 1000` back as its parts, with no exponent. */
  lemma ScanShown(negative: bool, q: nat, f: nat)
    requires f < 1000
    ensures ScanUnsigned(negative, NatToString(q) + FractionText(f))
            == Some(Literal(negative, NatToString(q), if f == 0 then [] else FractionDigits(f), 0))
  {
    var whole, frac := NatToString(q), FractionText(f);
    var u := whole + frac;
    DigitRunStops(whole, frac);
    assert u[..|whole|] == whole;
    assert u[|whole|..] == frac;
    if f != 0 {
      var ds := FractionDigits(f);
      DigitRunStops(ds, []);
      assert ds + [] == ds;
      assert frac[1..] == ds;
      assert frac[1 + |ds|..] == [];
    }
  }

  /** The text of `k / 1000` starts with `-` exactly for negative `k`, and otherwise with a digit. */
  lemma ShownStart(k: int)
    ensures (ShowThousandths(k)[0] == '-') == (k < 0)
    ensures LeadingSpace(ShowThousandths(k)) == 0
  {
    var u := NatToString(Abs(k) / 1000) + FractionText(Abs(k) % 1000);
    var s := ShowThousandths(k);
    assert s == (if k < 0 then "-" else "") + u;
    assert IsDigit(u[0]);
    assert s[0] == '-' || IsDigit(s[0]);
    assert !IsStrWhiteSpace(s[0]);
  }

  /** After its sign, the text of `k / 1000` is the digits of the whole part and the fraction text. */
  lemma UnsignedShown(k: int)
    ensures Unsigned(ShowThousandths(k)) == NatToString(Abs(k) / 1000) + FractionText(Abs(k) % 1000)
  {
    var u := NatToString(Abs(k) / 1000) + FractionText(Abs(k) % 1000);
    var s := ShowThousandths(k);
    ShownStart(k);
    assert s == (if k < 0 then "-" else "") + u;
    var t := s[LeadingSpace(s)..];
    assert t == s;
    if k < 0 {
      assert IsSign(t[0]) && t[1..] == u;
    } else {
      assert t == u && IsDigit(u[0]) && !IsSign(t[0]);
    }
  }

  /** `parseFloat` reads the text of `k / 1000` as the parts of that number, without exponent. */
  lemma ScanShownLiteral(k: int)
    ensures ScanLiteral(ShowThousandths(k)) == Some(ShownLiteral(k))
  {
    var s := ShowThousandths(k);
    ShownStart(k);
    UnsignedShown(k);
    assert s[LeadingSpace(s)..] == s;
    ScanShown(k < 0, Abs(k) / 1000, Abs(k) % 1000);
  }

  /** A literal without exponent denotes its signed mantissa. */
  lemma LiteralValueNoExponent(negative: bool, whole: string, fraction: string)
    requires AllDigits(whole) && AllDigits(fraction)
    ensures var m := DigitsValue(whole) as real + DigitsValue(fraction) as real / Pow10(|fraction|) as real;
            LiteralValue(Literal(negative, whole, fraction, 0)) == if negative then -m else m
  {
    assert Scale10(0) == 1.0;
  }

  /** A literal with only whole digits denotes the value of those digits. */
  lemma WholeLiteralValue(whole: string)
    requires AllDigits(whole)
    ensures LiteralValue(Literal(false, whole, [], 0)) == DigitsValue(whole) as real
  {
    var none: string := [];
    LiteralValueNoExponent(false, whole, none);
    assert DigitsValue(none) == 0 && |none| == 0 && Pow10(0) == 1;
    assert DigitsValue(none) as real / Pow10(|none|) as real == 0.0;
  }

  /** A whole part and a number of thousandths denote `q + f / 1000`, with the sign of `k`. */
  lemma ThousandthsSplit(k: int)
    ensures var n := Abs(k);
            var m := (n / 1000) as real + (n % 1000) as real / 1000.0;
            (if k < 0 then -m else m) == k as real / 1000.0
  {
    var n := Abs(k);
    assert n == 1000 * (n / 1000) + n % 1000;
    assert (n as real) / 1000.0 == (n / 1000) as real + (n % 1000) as real / 1000.0;
  }

  /** The literal read from the text of `k / 1000`: its sign, whole digits and fraction digits. */
  function ShownLiteral(k: int): (lit: Literal)
    ensures AllDigits(lit.whole) && AllDigits(lit.fraction)
  {
    var f := Abs(k) % 1000;
    Literal(k < 0, NatToString(Abs(k) / 1000), if f == 0 then [] else FractionDigits(f), 0)
  }

  /** The literal read from the text of `k / 1000` denotes `k / 1000`. */
  lemma ShownLiteralValue(k: int)
    ensures LiteralValue(ShownLiteral(k)) == k as real / 1000.0
  {
    var n := Abs(k);
    var q, f := n / 1000, n % 1000;
    var lit := ShownLiteral(k);
    LiteralValueNoExponent(k < 0, lit.whole, lit.fraction);
    NatToStringValue(q);
    var x := DigitsValue(lit.fraction) as real / Pow10(|lit.fraction|) as real;
    if f != 0 {
      FractionValue(f);
    } else {
      assert DigitsValue(lit.fraction) == 0 && Pow10(0) == 1;
    }
    assert x == f as real / 1000.0;
    var m := q as real + f as real / 1000.0;
    assert LiteralValue(lit) == if k < 0 then -m else m;
    ThousandthsSplit(k);
  }

  /** Reading back the text of `k / 1000` gives `k / 1000`. */
  lemma ParseShowThousandths(k: int)
    ensures ParseFloat(ShowThousandths(k)) == Some(k as real / 1000.0)
  {
    ScanShownLiteral(k);
    ShownLiteralValue(k);
  }

  /** True when `rest` cannot continue a run of whole digits as part of a literal. */
  predicate EndsLiteral(rest: string) {
    rest == [] || !(IsDigit(rest[0]) || rest[0] == '.' || rest[0] == 'e' || rest[0] == 'E')
  }

  /** A run of digits followed by text that cannot continue the literal is read as those digits alone. */
  lemma ScanDigitsPrefix(digits: string, rest: string)
    requires |digits| > 0 && AllDigits(digits)
    requires EndsLiteral(rest)
    ensures ScanLiteral(digits + rest) == Some(Literal(false, digits, [], 0))
  {
    var u := digits + rest;
    assert u[0] == digits[0] && IsDigit(u[0]);
    assert !IsStrWhiteSpace(u[0]) && !IsSign(u[0]);
    assert LeadingSpace(u) == 0;
    assert u[0..] == u;
    assert Unsigned(u) == u;
    DigitRunStops(digits, rest);
    assert u[..|digits|] == digits && u[|digits|..] == rest;
    assert ExponentOf(rest) == 0;
  }

  /**
    `parseFloat` reads only the longest literal prefix: a run of digits followed by text that
    cannot continue the literal denotes the value of the digits, whatever the text is.
   */
  lemma ParseIgnoresTrailingText(digits: string, rest: string)
    requires |digits| > 0 && AllDigits(digits)
    requires EndsLiteral(rest)
    ensures ParseFloat(digits + rest) == Some(DigitsValue(digits) as real)
  {
    var lit := Literal(false, digits, [], 0);
    ScanDigitsPrefix(digits, rest);
    assert ParseFloat(digits + rest) == Some(LiteralValue(lit));
    WholeLiteralValue(digits);
  }

  /** For example, `"12abc"` reads as 12. */
  lemma ParseTwelveAbc()
    ensures ParseFloat("12abc") == Some(12.0)
  {
    ParseIgnoresTrailingText("12", "abc");
    assert "12" + "abc" == "12abc";
    DigitsValueTwo(1, 2);
    assert [DigitChar(1), DigitChar(2)] == "12";
  }

  /** Text with no number in front is NaN. */
  lemma ParseRejectsNonNumbers()
    ensures ParseFloat("") == None
    ensures ParseFloat("abc") == None
    ensures ParseFloat(".") == None
    ensures ParseFloat("-") == None
  {
  }
}
