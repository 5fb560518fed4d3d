/**
 * Python's `int(text)` on the cost tokens: surrounding whitespace is
 * stripped, then an optional `+` or `-` sign is followed by ASCII decimal
 * digits, where a single `_` may separate two digits.  Anything else raises
 * `ValueError`, modelled as `None`.
 */
module IntParse {
  import opened Wrappers

  predicate IsDigit(c: char) {
    '0' <= c <= '9'
  }

  predicate AllDigits(s: string) {
    forall i | 0 <= i < |s| :: IsDigit(s[i])
  }

  /**
   * The whitespace `int()` strips from both ends: the ASCII characters tab,
   * line feed, vertical tab, form feed, carriage return and space, and the
   * Unicode whitespace above U+007F.  The ASCII separators U+001C to U+001F,
   * which `str.isspace()` accepts, are not stripped.
   */
  predicate IsSpace(c: char) {
    var n := c as int;
    || 0x09 <= n <= 0x0D || n == 0x20 || n == 0x85 || n == 0xA0 || n == 0x1680
    || 0x2000 <= n <= 0x200A || n == 0x2028 || n == 0x2029 || n == 0x202F || n == 0x205F || n == 0x3000
  }

  function StripLeading(s: string): string {
    if s != [] && IsSpace(s[0]) then StripLeading(s[1..]) else s
  }

  function StripTrailing(s: string): string {
    if s != [] && IsSpace(s[|s| - 1]) then StripTrailing(s[..|s| - 1]) else s
  }

  /** The stripping `int()` does (not `str.strip()`: U+001C to U+001F are kept). */
  function Strip(s: string): string {
    StripTrailing(StripLeading(s))
  }

  /** One or more digits, a single `_` allowed between two digits. */
  predicate DigitRun(s: string)
    decreases |s|
  {
    && |s| > 0 && IsDigit(s[0])
    && (|s| == 1 || if s[1] == '_' then DigitRun(s[2..]) else DigitRun(s[1..]))
  }

  /** The digits of a run, underscores dropped. */
  function Digits(s: string): (r: string)
    requires DigitRun(s)
    ensures |r| > 0 && AllDigits(r)
    decreases |s|
  {
    if |s| == 1 then [s[0]]
    else if s[1] == '_' then [s[0]] + Digits(s[2..])
    else [s[0]] + Digits(s[1..])
  }

  /** The decimal value of a run of digits, most significant first. */
  function DigitsValue(s: string): nat
    requires AllDigits(s)
  {
    if s == [] then 0
    else DigitsValue(s[..|s| - 1]) * 10 + (s[|s| - 1] as int - '0' as int)
  }

  /** `int(s)`: `Some` of the value, or `None` where Python raises `ValueError`. */
  function ParseInt(s: string): Option<int> {
    ParseStripped(Strip(s))
  }

  /** `int()` on text whose whitespace is already stripped. */
  function ParseStripped(t: string): Option<int> {
    if DigitRun(t) then Some(DigitsValue(Digits(t)))
    else if |t| > 1 && t[0] == '+' && DigitRun(t[1..]) then Some(DigitsValue(Digits(t[1..])))
    else if |t| > 1 && t[0] == '-' && DigitRun(t[1..]) then Some(0 - DigitsValue(Digits(t[1..])) as int)
    else None
  }

  /** The shortest decimal spelling of a natural number (`str(n)`). */
  function Decimal(n: nat): (s: string)
    ensures |s| > 0 && AllDigits(s)
    decreases n
  {
    if n < 10 then ["0123456789"[n]]
    else Decimal(n / 10) + ["0123456789"[n % 10]]
  }

  /** `str(n)` for any integer. */
  function Show(n: int): string {
    if n < 0 then "-" + Decimal(-n) else Decimal(n)
  }

  lemma {:induction false} DecimalValue(n: nat)
    ensures DigitsValue(Decimal(n)) == n
    decreases n
  {
    var s := Decimal(n);
    if n >= 10 {
      DecimalValue(n / 10);
      assert s[..|s| - 1] == Decimal(n / 10);
    }
  }

  /** Digits without underscores form a run and are their own digits. */
  lemma {:induction false} DigitsOfDigits(s: string)
    requires |s| > 0 && AllDigits(s)
    ensures DigitRun(s) && Digits(s) == s
    decreases |s|
  {
    if |s| > 1 {
      DigitsOfDigits(s[1..]);
      assert [s[0]] + s[1..] == s;
    }
  }

  /** Text that neither starts nor ends with whitespace is left alone by `strip`. */
  lemma StripNothing(s: string)
    requires s != [] && !IsSpace(s[0]) && !IsSpace(s[|s| - 1])
    ensures Strip(s) == s
  {
  }

  /** `int(str(n)) == n`. */
  lemma ParseShow(n: int)
    ensures ParseInt(Show(n)) == Some(n)
  {
    if n < 0 {
      ParseShowNegative(n);
    } else {
      ParseShowNatural(n);
    }
  }

  lemma ParseShowNegative(n: int)
    requires n < 0
    ensures ParseInt(Show(n)) == Some(n)
  {
    var d := Decimal(-n);
    assert ParseInt("-" + d) == Some(n) by {
      DecimalValue(-n);
      ParseNegative(d);
    }
    assert Show(n) == "-" + d;
  }

  lemma ParseShowNatural(n: nat)
    ensures ParseInt(Show(n)) == Some(n)
  {
    var d := Decimal(n);
    assert ParseInt(d) == Some(n) by {
      DecimalValue(n);
      ParseDigits(d);
    }
    assert Show(n) == d;
  }

  /** Whitespace in front of the text does not change what `int()` reads. */
  lemma LeadingSpaceIgnored(c: char, s: string)
    requires IsSpace(c)
    ensures ParseInt([c] + s) == ParseInt(s)
  {
    assert ([c] + s)[1..] == s;
    assert StripLeading([c] + s) == StripLeading(s);
  }

  /** Stripping the front of text that ends in whitespace keeps that whitespace, unless nothing else is left. */
  lemma {:induction false} StripLeadingSnoc(s: string, c: char)
    requires IsSpace(c)
    ensures StripLeading(s + [c]) == StripLeading(s) + [c] || (StripLeading(s) == [] && StripLeading(s + [c]) == [])
  {
    if s == [] {
      assert s + [c] == [c] && [c][1..] == [];
    } else if IsSpace(s[0]) {
      assert (s + [c])[1..] == s[1..] + [c];
      StripLeadingSnoc(s[1..], c);
    }
  }

  /** Whitespace after the text does not change what `int()` reads. */
  lemma TrailingSpaceIgnored(s: string, c: char)
    requires IsSpace(c)
    ensures ParseInt(s + [c]) == ParseInt(s)
  {
    StripLeadingSnoc(s, c);
    var x := StripLeading(s);
    if StripLeading(s + [c]) == x + [c] {
      assert (x + [c])[..|x|] == x;
    }
  }

  /** Plain digits read as their decimal value. */
  lemma ParseDigits(s: string)
    requires |s| > 0 && AllDigits(s)
    ensures ParseInt(s) == Some(DigitsValue(s))
  {
    StripNothing(s);
    DigitsOfDigits(s);
  }

  /** A single digit reads as its value. */
  lemma ParseDigit(c: char)
    requires IsDigit(c)
    ensures ParseInt([c]) == Some(c as int - '0' as int)
  {
    ParseDigits([c]);
    assert [c][..0] == [];
  }

  /** A minus sign in front of plain digits negates their value. */
  lemma ParseNegative(s: string)
    requires |s| > 0 && AllDigits(s)
    ensures ParseInt("-" + s) == Some(0 - DigitsValue(s) as int)
  {
    var t := "-" + s;
    assert t[0] == '-' && t[|t| - 1] == s[|s| - 1];
    StripNothing(t);
    NegativeRun(s);
  }

  lemma NegativeRun(s: string)
    requires |s| > 0 && AllDigits(s)
    ensures ParseStripped("-" + s) == Some(0 - DigitsValue(s) as int)
  {
    var t := "-" + s;
    assert t[1..] == s;
    DigitsOfDigits(s);
    assert !IsDigit(t[0]);
  }

  lemma ThousandAndHundredFifty()
    ensures DigitsValue("1000") == 1000 && DigitsValue("150") == 150
  {
    assert "1000"[..3] == "100" && "100"[..2] == "10" && "10"[..1] == "1" && "1"[..0] == "";
    assert "150"[..2] == "15" && "15"[..1] == "1";
    assert DigitsValue("1") == 1;
    assert DigitsValue("10") == 10 && DigitsValue("15") == 15;
    assert DigitsValue("100") == 100 && DigitsValue("150") == 150;
  }

  /** A cost padded with whitespace reads as the number it spells. */
  lemma PaddedCosts()
    ensures ParseInt(" 1000") == Some(1000) && ParseInt("150 ") == Some(150)
  {
    LeadingPadded();
    TrailingPadded();
  }

  lemma LeadingPadded()
    ensures ParseInt(" 1000") == Some(1000)
  {
    ThousandAndHundredFifty();
    ParseDigits("1000");
    LeadingSpaceIgnored(' ', "1000");
    assert " 1000" == [' '] + "1000";
  }

  lemma TrailingPadded()
    ensures ParseInt("150 ") == Some(150)
  {
    ThousandAndHundredFifty();
    ParseDigits("150");
    TrailingSpaceIgnored("150", ' ');
    assert "150 " == "150" + [' '];
  }

  /** A single underscore may group digits. */
  lemma GroupedCost()
    ensures ParseInt("1_000") == Some(1000)
  {
    StripNothing("1_000");
    assert "1_000"[2..] == "000" && "000"[1..] == "00" && "00"[1..] == "0";
    assert Digits("1_000") == "1000";
    ThousandAndHundredFifty();
  }

  /** Doubled or leading underscores and commas make `int()` raise. */
  lemma RejectedCosts()
    ensures ParseInt("1__000") == None && ParseInt("_1") == None && ParseInt("1,5") == None
  {
    StripNothing("1__000");
    assert "1__000"[1] == '_' && "1__000"[2] == '_';
    StripNothing("_1");
    StripNothing("1,5");
    assert "1,5"[1] == ',';
  }

  /** The separator U+001C is not whitespace to `int()`: a token that starts with it raises. */
  lemma SeparatorNotStripped()
    ensures ParseInt([0x1C as char] + "5") == None
  {
    var t := [0x1C as char] + "5";
    assert t[0] == 0x1C as char && t[|t| - 1] == '5';
    StripNothing(t);
    assert !IsDigit(t[0]);
  }
}
