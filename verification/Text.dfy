/** Characters, decimal printing and integer parsing as the standard library does them. */
module Text {
  import opened Clock
  import opened Positions

  /** std::isspace in the C locale. */
  predicate IsSpace(c: char) {
    c == ' ' || c == '\t' || c == '\n' || c == '\r' || c == '\U{000B}' || c == '\U{000C}'
  }

  predicate NotSpace(c: char) {
    !IsSpace(c)
  }

  predicate NotQuote(c: char) {
    c != '"'
  }

  predicate IsDigit(c: char) {
    '0' <= c <= '9'
  }

  predicate All(s: string, p: char -> bool) {
    forall k :: 0 <= k < |s| ==> p(s[k])
  }

  /** How far the leading stretch of characters satisfying `p` reaches. */
  function Span(s: string, p: char -> bool): (n: nat)
    ensures n <= |s| && All(s[..n], p)
    ensures n < |s| ==> !p(s[n])
  {
    if s == "" || !p(s[0]) then 0
    else
      var n := 1 + Span(s[1..], p);
      assert s[..n] == [s[0]] + s[1..][..n - 1];
      n
  }

  lemma {:induction false} SpanIsUnique(s: string, p: char -> bool, n: nat)
    requires n <= |s| && All(s[..n], p) && (n < |s| ==> !p(s[n]))
    ensures Span(s, p) == n
  {
    if n > 0 {
      assert s[..n][0] == s[0];
      assert s[..n][1..] == s[1..][..n - 1];
      SpanIsUnique(s[1..], p, n - 1);
    }
  }

  // ----- Regrouping concatenations ------------------------------------------------------------------

  lemma Associate(a: string, b: string, c: string)
    ensures a + (b + c) == a + b + c
  {
  }

  lemma Regroup(a: string, b: string, c: string, d: string)
    ensures a + (b + c + d) == a + b + c + d
    ensures a + b + (c + d) == a + b + c + d
  {
    var left, right := a + (b + c + d), a + b + c + d;
    assert |left| == |right| && forall k :: 0 <= k < |left| ==> left[k] == right[k];
  }

  // ----- Decimal text ---------------------------------------------------------------------------

  function DigitChar(d: nat): (c: char)
    requires d < 10
    ensures IsDigit(c)
  {
    ('0' as int + d) as char
  }

  function DigitValue(c: char): nat
    requires IsDigit(c)
  {
    c as int - '0' as int
  }

  /** std::to_string of a non-negative number. */
  function NatText(n: nat): (s: string)
    ensures s != "" && All(s, IsDigit)
  {
    if n < 10 then [DigitChar(n)] else NatText(n / 10) + [DigitChar(n % 10)]
  }

  /** std::to_string of an int. */
  function IntText(n: int): string {
    if n < 0 then "-" + NatText(-n) else NatText(n)
  }

  function NatValue(digits: string): nat
    requires All(digits, IsDigit)
  {
    if digits == "" then 0
    else
      var n := |digits| - 1;
      NatValue(digits[..n]) * 10 + DigitValue(digits[n])
  }

  lemma {:induction false} NatTextValue(n: nat)
    ensures NatValue(NatText(n)) == n
  {
    if n >= 10 {
      NatTextValue(n / 10);
      assert NatText(n)[..|NatText(n)| - 1] == NatText(n / 10);
    }
  }

  /** The integer std::stoi reads from the whole text: leading space, a sign, digits to the end,
      a value that fits an int. None where stoi throws or stops short. */
  function ParseInt(text: string): Option<int32> {
    ParseBody(text[Span(text, IsSpace)..])
  }

  function ParseBody(body: string): Option<int32> {
    var signed := body != "" && (body[0] == '-' || body[0] == '+');
    var digits := if signed then body[1..] else body;
    if digits == "" || !All(digits, IsDigit) then None
    else
      var magnitude: int := NatValue(digits);
      FittingInt(if signed && body[0] == '-' then -magnitude else magnitude)
  }

  function FittingInt(value: int): Option<int32> {
    if -0x8000_0000 <= value < 0x8000_0000 then Some(value) else None
  }

  /** An optional sign and digits. */
  predicate SignedDigits(sign: string, digits: string) {
    (sign == "" || sign == "+" || sign == "-") && digits != "" && All(digits, IsDigit)
  }

  function SignedValue(sign: string, digits: string): int
    requires SignedDigits(sign, digits)
  {
    var magnitude: int := NatValue(digits);
    if sign == "-" then -magnitude else magnitude
  }

  /** Space, an optional sign and digits, and nothing else, are read as their value if it fits. */
  lemma ParseIntOfParts(space: string, sign: string, digits: string)
    requires All(space, IsSpace) && SignedDigits(sign, digits)
    ensures ParseInt(space + sign + digits) == FittingInt(SignedValue(sign, digits))
  {
    BodyOfParts(space, sign, digits);
    ParseBodyOfParts(sign, digits);
  }

  lemma BodyOfParts(space: string, sign: string, digits: string)
    requires All(space, IsSpace) && SignedDigits(sign, digits)
    ensures var text := space + sign + digits; text[Span(text, IsSpace)..] == sign + digits
  {
    var text := space + sign + digits;
    assert IsDigit(digits[0]);
    assert text[..|space|] == space && text[|space|..] == sign + digits;
    assert text[|space|] == if sign == "" then digits[0] else sign[0];
    SpanIsUnique(text, IsSpace, |space|);
  }

  lemma ParseBodyOfParts(sign: string, digits: string)
    requires SignedDigits(sign, digits)
    ensures ParseBody(sign + digits) == FittingInt(SignedValue(sign, digits))
  {
    hide NatValue;
    assert IsDigit(digits[0]);
    assert sign == "" ==> sign + digits == digits;
    assert sign != "" ==> (sign + digits)[0] == sign[0] && (sign + digits)[1..] == digits;
  }

  lemma BodyShape(body: string) returns (sign: string, digits: string)
    requires ParseBody(body).Some?
    ensures body == sign + digits && SignedDigits(sign, digits)
    ensures ParseBody(body) == Some(SignedValue(sign, digits))
  {
    hide NatValue;
    if body[0] == '-' || body[0] == '+' {
      sign, digits := [body[0]], body[1..];
    } else {
      sign, digits := "", body;
    }
  }

  /** What is accepted has that shape and that value. */
  lemma ParseIntAcceptsOnlyParts(text: string) returns (space: string, sign: string, digits: string)
    requires ParseInt(text).Some?
    ensures text == space + sign + digits && All(space, IsSpace) && SignedDigits(sign, digits)
    ensures ParseInt(text) == Some(SignedValue(sign, digits))
  {
    hide ParseBody, SignedDigits, SignedValue, All;
    var n := Span(text, IsSpace);
    space := text[..n];
    sign, digits := BodyShape(text[n..]);
    Associate(space, sign, digits);
  }

  function Zeros(n: nat): (zeros: string)
    ensures |zeros| == n && All(zeros, IsDigit)
  {
    seq(n, _ => '0')
  }

  /** Every digit string is its value printed, behind some zeros; so printing is the one way to
      write a number without a leading zero. */
  lemma {:induction false} DigitsArePaddedText(digits: string)
    requires digits != "" && All(digits, IsDigit)
    ensures |NatText(NatValue(digits))| <= |digits|
    ensures digits == Zeros(|digits| - |NatText(NatValue(digits))|) + NatText(NatValue(digits))
  {
    var n := |digits| - 1;
    var c := digits[n];
    assert digits == digits[..n] + [c] && DigitChar(DigitValue(c)) == c;
    if n == 0 {
      assert NatValue(digits[..0]) == 0;
    } else {
      var value := NatValue(digits[..n]);
      DigitsArePaddedText(digits[..n]);
      hide NatValue;
      PaddedTextSnoc(digits[..n], value, c);
    }
  }

  lemma PaddedTextSnoc(digits: string, value: nat, c: char)
    requires IsDigit(c) && |NatText(value)| <= |digits|
    requires digits == Zeros(|digits| - |NatText(value)|) + NatText(value)
    ensures var next := NatText(value * 10 + DigitValue(c));
            |next| <= |digits| + 1 && digits + [c] == Zeros(|digits| + 1 - |next|) + next
  {
    var next := value * 10 + DigitValue(c);
    assert DigitChar(DigitValue(c)) == c;
    if value == 0 {
      assert next < 10 && NatText(next) == [c] && NatText(0) == "0";
    } else {
      assert next / 10 == value && next % 10 == DigitValue(c);
      assert NatText(next) == NatText(value) + [c];
    }
  }

  /** A printed number has no leading zero, unless it is zero. */
  lemma {:induction false} NatTextHasNoLeadingZero(n: nat)
    ensures NatText(n)[0] == '0' <==> n == 0
  {
    if n >= 10 {
      NatTextHasNoLeadingZero(n / 10);
      assert NatText(n)[0] == NatText(n / 10)[0];
    }
  }

  /** Main result: printing an integer and parsing it back gives the integer when it fits an int
      and is refused when it does not. */
  lemma ParseIntOfIntText(n: int)
    ensures ParseInt(IntText(n)) == if -0x8000_0000 <= n < 0x8000_0000 then Some(n) else None
  {
    hide ParseInt, NatValue, NatText;
    var magnitude := if n < 0 then -n else n;
    var sign := if n < 0 then "-" else "";
    NatTextValue(magnitude);
    ParseIntOfParts("", sign, NatText(magnitude));
    assert "" + sign + NatText(magnitude) == IntText(n);
  }
}
