/** Decimal numbers as text: which texts are read, and that a numeral is read as the number it writes. */
module DecimalText {
  import opened Common
  import opened ExactDecimal

  const I32_MIN := -0x8000_0000
  const I32_MAX := 0x7FFF_FFFF

  predicate IsDigit(c: char) { '0' <= c <= '9' }

  predicate IsSign(c: char) { c == '-' || c == '+' }

  predicate AllDigits(s: string) {
    forall k :: 0 <= k < |s| ==> IsDigit(s[k])
  }

  /** The number that decimal digits write. */
  function DigitsValue(s: string): nat
    requires AllDigits(s)
  {
    if s == [] then 0 else 10 * DigitsValue(s[..|s| - 1]) + (s[|s| - 1] as int - '0' as int)
  }

  /** The standard parser of signed integers: a sign if there is one, at least one digit, in range. */
  function ParseInteger(s: string, low: int, high: int): Option<int> {
    var digits := if s != [] && IsSign(s[0]) then s[1..] else s;
    if digits == [] || !AllDigits(digits) then None
    else
      var n: int := if s[0] == '-' then -(DigitsValue(digits) as int) else DigitsValue(digits);
      if low <= n <= high then Some(n) else None
  }

  /** Where the first of these characters stands; the length if none does. */
  function FirstOf(s: string, cs: set<char>): (i: nat)
    ensures i <= |s| && (forall k :: 0 <= k < i ==> s[k] !in cs) && (i < |s| ==> s[i] in cs)
  {
    if s == [] || s[0] in cs then 0 else
      var i := FirstOf(s[1..], cs);
      assert forall k :: 0 < k <= i ==> s[k] == s[1..][k - 1];
      i + 1
  }

  /** The text before the first of these characters and the text after it; nothing after if none is there. */
  function SplitOnce(s: string, cs: set<char>): (string, Option<string>) {
    var i := FirstOf(s, cs);
    (s[..i], if i < |s| then Some(s[i + 1..]) else None)
  }

  function TrimSigns(s: string): string {
    if s != [] && IsSign(s[0]) then TrimSigns(s[1..]) else s
  }

  /** The digits with their sign, and how many of them follow the point. */
  function ParseMantissa(mantissa: string): Option<(int, nat)> {
    var parts := SplitOnce(TrimSigns(mantissa), {'.'});
    var whole, fraction := parts.0, if parts.1.Some? then parts.1.value else "";
    if whole == [] && fraction == [] then None
    else
      var n := ParseInteger(whole + fraction, -I128_MAX - 1, I128_MAX);
      if n.None? then None
      else if mantissa == [] || mantissa[0] != '-' then Some((n.value, |fraction|))
      else if n.value == -I128_MAX - 1 then None
      else Some((-n.value, |fraction|))
  }

  /** The digits with the point moved by the exponent. */
  function Shifted(mantissa: Option<(int, nat)>, exponent: int): Option<Decimal> {
    if mantissa.None? || mantissa.value.1 > I32_MAX then None
    else
      var scale := mantissa.value.1 - exponent;
      if I32_MIN <= scale <= I32_MAX then FromScaled(mantissa.value.0, scale) else None
  }

  function Parse(text: string): Option<Decimal> {
    var parts := SplitOnce(text, {'e', 'E'});
    var exponent := if parts.1.None? then Some(0) else ParseInteger(parts.1.value, I32_MIN, I32_MAX);
    if exponent.None? then None else Shifted(ParseMantissa(parts.0), exponent.value)
  }

  // ---- numerals

  /** A decimal number as it is written: a sign, digits before and after the point, an exponent. */
  datatype Numeral = Numeral(sign: string, whole: string, fraction: Option<string>, exponent: Option<(char, string)>) {
    function Fraction(): string { if fraction.Some? then fraction.value else "" }

    function Mantissa(): string { sign + Body() }

    function Body(): string { whole + if fraction.Some? then "." + fraction.value else "" }

    function Text(): string { Mantissa() + if exponent.Some? then [exponent.value.0] + exponent.value.1 else "" }
  }

  predicate NumeralOk(n: Numeral) {
    && (n.sign == "" || n.sign == "-" || n.sign == "+")
    && AllDigits(n.whole) && AllDigits(n.Fraction()) && n.whole + n.Fraction() != ""
    && (n.exponent.Some? ==>
      && (n.exponent.value.0 == 'e' || n.exponent.value.0 == 'E')
      && ParseInteger(n.exponent.value.1, I32_MIN, I32_MAX).Some?)
  }

  function ExponentOf(n: Numeral): int
    requires NumeralOk(n)
  {
    if n.exponent.None? then 0 else ParseInteger(n.exponent.value.1, I32_MIN, I32_MAX).value
  }

  /** All digits of the mantissa as one integer. */
  function DigitsOf(n: Numeral): int
    requires NumeralOk(n)
  {
    var v: int := DigitsValue(n.whole + n.Fraction());
    if n.sign == "-" then -v else v
  }

  /** The number that digits write when `scale` of them follow the point. */
  ghost function Scaled(digits: int, scale: int): real {
    if scale >= 0 then digits as real / Pow10(scale) as real else (digits * Pow10(-scale)) as real
  }

  lemma SplitAt(s: string, c: char, t: string, cs: set<char>)
    requires c in cs && forall k :: 0 <= k < |s| ==> s[k] !in cs
    ensures SplitOnce(s + [c] + t, cs) == (s, Some(t))
  {
    var text := s + [c] + t;
    var i := FirstOf(text, cs);
    assert text[|s|] == c && forall k :: 0 <= k < |s| ==> text[k] == s[k];
    assert text[..|s|] == s && text[|s| + 1..] == t;
  }

  lemma SplitNowhere(s: string, cs: set<char>)
    requires forall k :: 0 <= k < |s| ==> s[k] !in cs
    ensures SplitOnce(s, cs) == (s, None)
  {
    assert s[..|s|] == s;
  }

  lemma BodyTrimmed(n: Numeral)
    requires NumeralOk(n)
    ensures TrimSigns(n.Mantissa()) == n.Body() && n.Body() != "" && !IsSign(n.Body()[0])
    ensures forall k :: 0 <= k < |n.Mantissa()| ==> n.Mantissa()[k] != 'e' && n.Mantissa()[k] != 'E'
    ensures n.Mantissa()[0] == '-' <==> n.sign == "-"
  {
    var body := n.Body();
    assert n.whole == "" ==> n.fraction.Some? && body == "." + n.fraction.value;
    if n.sign == "" {
      assert n.Mantissa() == body;
    } else {
      assert n.Mantissa()[0] == n.sign[0] && n.Mantissa()[1..] == body;
    }
  }

  lemma DigitsAreRead(digits: string)
    requires AllDigits(digits) && digits != ""
    ensures ParseInteger(digits, -I128_MAX - 1, I128_MAX) ==
      if DigitsValue(digits) <= I128_MAX then Some(DigitsValue(digits)) else None
  {
    assert IsDigit(digits[0]);
  }

  lemma BodySplit(n: Numeral)
    requires NumeralOk(n)
    ensures SplitOnce(n.Body(), {'.'}) == (n.whole, n.fraction)
  {
    if n.fraction.Some? {
      SplitAt(n.whole, '.', n.fraction.value, {'.'});
      assert n.whole + "." + n.fraction.value == n.Body();
    } else {
      SplitNowhere(n.whole, {'.'});
      assert n.Body() == n.whole;
    }
  }

  lemma MantissaRead(n: Numeral)
    requires NumeralOk(n)
    ensures ParseMantissa(n.Mantissa()) ==
      if Abs(DigitsOf(n)) <= I128_MAX then Some((DigitsOf(n), |n.Fraction()|)) else None
  {
    BodyTrimmed(n);
    BodySplit(n);
    DigitsAreRead(n.whole + n.Fraction());
  }

  lemma MarkedSplit(mantissa: string, exponent: Option<(char, string)>)
    requires forall k :: 0 <= k < |mantissa| ==> mantissa[k] != 'e' && mantissa[k] != 'E'
    requires exponent.Some? ==> exponent.value.0 == 'e' || exponent.value.0 == 'E'
    ensures SplitOnce(mantissa + if exponent.Some? then [exponent.value.0] + exponent.value.1 else "", {'e', 'E'}) ==
      (mantissa, if exponent.None? then None else Some(exponent.value.1))
  {
    if exponent.Some? {
      SplitAt(mantissa, exponent.value.0, exponent.value.1, {'e', 'E'});
      assert mantissa + [exponent.value.0] + exponent.value.1 == mantissa + ([exponent.value.0] + exponent.value.1);
    } else {
      SplitNowhere(mantissa, {'e', 'E'});
      assert mantissa + "" == mantissa;
    }
  }

  lemma TextSplit(n: Numeral)
    requires NumeralOk(n)
    ensures SplitOnce(n.Text(), {'e', 'E'}) ==
      (n.Mantissa(), if n.exponent.None? then None else Some(n.exponent.value.1))
  {
    BodyTrimmed(n);
    MarkedSplit(n.Mantissa(), n.exponent);
  }

  /** The digits with their point, in lowest terms, unless they or their scale leave their range. */
  ghost predicate IsScaled(digits: int, count: nat, exponent: int, r: Option<Decimal>) {
    && r == (if count <= I32_MAX && I32_MIN <= count - exponent <= I32_MAX then Parsed(digits, count - exponent)
      else None)
    && (r.Some? ==> Canonical(r.value) && Value(r.value) == Scaled(digits, count - exponent))
  }

  lemma ShiftedIsScaled(digits: int, count: nat, mantissa: Option<(int, nat)>, exponent: int)
    requires mantissa == if Abs(digits) <= I128_MAX then Some((digits, count)) else None
    ensures IsScaled(digits, count, exponent, Shifted(mantissa, exponent))
  {
    var r := Shifted(mantissa, exponent);
    if r.Some? {
      ParsedIsWritten(digits, count - exponent);
    }
  }

  lemma TextIsShifted(n: Numeral)
    requires NumeralOk(n)
    ensures Parse(n.Text()) == Shifted(ParseMantissa(n.Mantissa()), ExponentOf(n))
  {
    TextSplit(n);
  }

  /** A numeral is read as the number it writes. */
  lemma NumeralIsRead(n: Numeral)
    requires NumeralOk(n)
    ensures IsScaled(DigitsOf(n), |n.Fraction()|, ExponentOf(n), Parse(n.Text()))
  {
    TextIsShifted(n);
    MantissaRead(n);
    ShiftedIsScaled(DigitsOf(n), |n.Fraction()|, ParseMantissa(n.Mantissa()), ExponentOf(n));
  }

  // ---- which texts are read

  predicate IsNumeralText(n: Numeral, text: string) {
    NumeralOk(n) && n.Text() == text
  }

  /** The text is a numeral. */
  ghost predicate IsNumeral(text: string) {
    exists n :: IsNumeralText(n, text)
  }

  /** At most one sign in front, and none right after a point that comes first. */
  predicate SignsOk(text: string) {
    var mantissa := SplitOnce(text, {'e', 'E'}).0;
    var body := TrimSigns(mantissa);
    |mantissa| <= |body| + 1 && !(|body| > 1 && body[0] == '.' && IsSign(body[1]))
  }

  lemma {:induction false} TrimIsSuffix(s: string)
    ensures var t := TrimSigns(s);
      && |t| <= |s| && s == s[..|s| - |t|] + t && (t != "" ==> !IsSign(t[0]))
      && forall k :: 0 <= k < |s| - |t| ==> IsSign(s[k])
  {
    if s != "" && IsSign(s[0]) {
      TrimIsSuffix(s[1..]);
      var t := TrimSigns(s[1..]);
      assert s[..|s| - |t|] == [s[0]] + s[1..][..|s| - 1 - |t|];
    }
  }

  lemma SplitJoins(s: string, cs: set<char>)
    ensures var (first, second) := SplitOnce(s, cs);
      && |first| <= |s| && (second.Some? <==> |first| < |s|)
      && (second.None? ==> s == first)
      && (second.Some? ==> s[|first|] in cs && s == first + [s[|first|]] + second.value)
  {
    var i := FirstOf(s, cs);
    if i < |s| {
      assert s == s[..i] + [s[i]] + s[i + 1..];
    }
  }

  /** The numeral that a text with its signs in order is. */
  function NumeralOf(text: string): Numeral {
    var (mantissa, exponent) := SplitOnce(text, {'e', 'E'});
    var body := TrimSigns(mantissa);
    var (whole, fraction) := SplitOnce(body, {'.'});
    Numeral(if |body| <= |mantissa| then mantissa[..|mantissa| - |body|] else "", whole, fraction,
      if exponent.Some? && |mantissa| < |text| then Some((text[|mantissa|], exponent.value)) else None)
  }

  lemma BodyDigits(mantissa: string)
    requires ParseMantissa(mantissa).Some?
    requires var body := TrimSigns(mantissa); !(|body| > 1 && body[0] == '.' && IsSign(body[1]))
    ensures var (whole, fraction) := SplitOnce(TrimSigns(mantissa), {'.'});
      var digits := whole + if fraction.Some? then fraction.value else "";
      AllDigits(digits) && digits != ""
  {
    var body := TrimSigns(mantissa);
    var (whole, fraction) := SplitOnce(body, {'.'});
    TrimIsSuffix(mantissa);
    SplitJoins(body, {'.'});
    if whole == "" {
      assert body == "." + fraction.value;
    } else {
      assert whole[0] == body[0];
    }
  }

  lemma BodyJoins(n: Numeral, body: string)
    requires SplitOnce(body, {'.'}) == (n.whole, n.fraction)
    ensures n.Body() == body
  {
    SplitJoins(body, {'.'});
  }

  lemma MantissaJoins(n: Numeral, mantissa: string)
    requires var body := TrimSigns(mantissa);
      |body| <= |mantissa| && n.sign == mantissa[..|mantissa| - |body|] && n.Body() == body
    ensures n.Mantissa() == mantissa
  {
    TrimIsSuffix(mantissa);
  }

  lemma TextJoins(n: Numeral, text: string)
    requires n == NumeralOf(text) && n.Mantissa() == SplitOnce(text, {'e', 'E'}).0
    ensures n.Text() == text
    ensures n.exponent.Some? ==> n.exponent.value.0 == 'e' || n.exponent.value.0 == 'E'
    ensures SplitOnce(text, {'e', 'E'}).1 == if n.exponent.None? then None else Some(n.exponent.value.1)
  {
    SplitJoins(text, {'e', 'E'});
  }

  lemma NumeralJoins(text: string)
    ensures NumeralOf(text).Text() == text
    ensures var n := NumeralOf(text);
      && n.Mantissa() == SplitOnce(text, {'e', 'E'}).0 && n.Body() == TrimSigns(n.Mantissa())
      && n.sign == n.Mantissa()[..|n.Mantissa()| - |n.Body()|] && SplitOnce(n.Body(), {'.'}) == (n.whole, n.fraction)
      && (n.exponent.Some? ==> n.exponent.value.0 == 'e' || n.exponent.value.0 == 'E')
      && SplitOnce(text, {'e', 'E'}).1 == if n.exponent.None? then None else Some(n.exponent.value.1)
  {
    var n, mantissa := NumeralOf(text), SplitOnce(text, {'e', 'E'}).0;
    TrimIsSuffix(mantissa);
    BodyJoins(n, TrimSigns(mantissa));
    MantissaJoins(n, mantissa);
    TextJoins(n, text);
  }

  lemma DigitsOfParts(whole: string, fraction: string)
    requires AllDigits(whole + fraction)
    ensures AllDigits(whole) && AllDigits(fraction)
  {
    var digits := whole + fraction;
    assert whole == digits[..|whole|] && fraction == digits[|whole|..];
  }

  lemma ReadParts(text: string)
    requires Parse(text).Some?
    ensures var (mantissa, exponent) := SplitOnce(text, {'e', 'E'});
      ParseMantissa(mantissa).Some? && (exponent.Some? ==> ParseInteger(exponent.value, I32_MIN, I32_MAX).Some?)
  {
  }

  lemma SignIsOne(mantissa: string)
    requires |mantissa| <= |TrimSigns(mantissa)| + 1
    ensures |TrimSigns(mantissa)| <= |mantissa|
    ensures var sign := mantissa[..|mantissa| - |TrimSigns(mantissa)|]; sign == "" || sign == "-" || sign == "+"
  {
    TrimIsSuffix(mantissa);
    var sign := mantissa[..|mantissa| - |TrimSigns(mantissa)|];
    assert sign == "" || (|sign| == 1 && sign == [sign[0]] && IsSign(sign[0]));
  }

  lemma NumeralOfText(text: string)
    requires Parse(text).Some? && SignsOk(text)
    ensures IsNumeralText(NumeralOf(text), text)
  {
    var n := NumeralOf(text);
    NumeralJoins(text);
    ReadParts(text);
    SignIsOne(n.Mantissa());
    BodyDigits(n.Mantissa());
    DigitsOfParts(n.whole, n.Fraction());
  }

  lemma NumeralHasSigns(n: Numeral)
    requires NumeralOk(n)
    ensures SignsOk(n.Text())
  {
    TextSplit(n);
    BodyTrimmed(n);
    if n.whole == "" {
      assert n.Body() == "." + n.fraction.value;
    }
  }

  /** A text that is read is a numeral exactly when its signs are in order. */
  lemma ReadIsNumeral(text: string)
    requires Parse(text).Some?
    ensures IsNumeral(text) <==> SignsOk(text)
  {
    if IsNumeral(text) {
      var n :| IsNumeralText(n, text);
      NumeralHasSigns(n);
    }
    if SignsOk(text) {
      NumeralOfText(text);
    }
  }

  /** A sign after a point that comes first is read as well: it turns the sign in front around, and
      counts among the digits. */
  lemma SignAfterPointIsRead()
    ensures Parse("-.-5") == Some(Decimal(1, 20)) && !IsNumeral("-.-5")
  {
    var text := "-.-5";
    SplitNowhere(text, {'e', 'E'});
    BodyIsTrimmed();
    ReadMantissa(text);
    FiveHundredths();
    assert !SignsOk(text);
    ReadIsNumeral(text);
  }

  lemma BodyIsTrimmed()
    ensures TrimSigns("-.-5") == ".-5"
  {
    assert "-.-5"[1..] == ".-5" && TrimSigns(".-5") == ".-5";
  }

  lemma ReadMantissa(text: string)
    requires TrimSigns(text) == ".-5" && text != "" && text[0] == '-'
    ensures ParseMantissa(text) == Some((5, 2))
  {
    SplitAt("", '.', "-5", {'.'});
    assert "" + ['.'] + "-5" == ".-5";
    ReadFive();
  }

  lemma ReadFive()
    ensures ParseInteger("-5", -I128_MAX - 1, I128_MAX) == Some(-5)
  {
    assert "-5"[1..] == "5" && "5"[..0] == "" && DigitsValue("") == 0;
    assert DigitsValue("5") == 10 * DigitsValue("5"[..0]) + ('5' as int - '0' as int) == 5;
  }

  lemma FiveHundredths()
    ensures FromScaled(5, 2) == Some(Decimal(1, 20))
  {
    assert Pow10(0) == 1 && Pow10(1) == 10 && Pow10(2) == 100;
    assert Gcd(100, 0) == 100 && Gcd(5, 0) == 5 && Gcd(100, 5) == 5 && Gcd(5, 100) == 5;
  }
}
