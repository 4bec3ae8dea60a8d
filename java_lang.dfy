/**
 * The pieces of java.lang the panels depend on: Integer.parseInt, String.valueOf(int)
 * and Boolean.parseBoolean, written out over strings of characters.
 */
module JavaLang {
  import opened Wrappers

  const INT_MIN: int := -0x8000_0000
  const INT_MAX: int := 0x7fff_ffff

  predicate IsDigit(c: char) {
    '0' <= c <= '9'
  }

  function DigitValue(c: char): (v: nat)
    requires IsDigit(c)
    ensures v <= 9
  {
    c as int - '0' as int
  }

  function DigitChar(v: nat): (c: char)
    requires v <= 9
    ensures IsDigit(c) && DigitValue(c) == v
  {
    (v + '0' as int) as char
  }

  predicate AllDigits(s: string) {
    forall i :: 0 <= i < |s| ==> IsDigit(s[i])
  }

  lemma AllDigitsPrefix(s: string, n: nat)
    requires AllDigits(s) && n <= |s|
    ensures AllDigits(s[..n])
  {
    assert forall i :: 0 <= i < n ==> s[..n][i] == s[i];
  }

  /** The value of a run of decimal digits, most significant digit first. */
  function DigitsValue(s: string): nat
    requires AllDigits(s)
  {
    if s == [] then 0
    else
      AllDigitsPrefix(s, |s| - 1);
      DigitsValue(s[..|s| - 1]) * 10 + DigitValue(s[|s| - 1])
  }

  /**
   * Integer.parseInt(s) in radix 10; None stands for NumberFormatException.
   * The text is an optional '-' or '+' followed by at least one digit, and the
   * value it denotes must fit in a 32-bit int.
   */
  function ParseInt(s: string): (r: Option<int>)
    ensures r.Some? ==> INT_MIN <= r.value <= INT_MAX
    ensures r.Some? ==> s != [] && (IsDigit(s[0]) || (|s| >= 2 && (s[0] == '-' || s[0] == '+')))
  {
    var negative := |s| > 0 && s[0] == '-';
    var digits := if |s| > 0 && (s[0] == '-' || s[0] == '+') then s[1..] else s;
    if digits == [] || !AllDigits(digits) then None
    else
      var magnitude: int := DigitsValue(digits);
      var v := if negative then -magnitude else magnitude;
      if INT_MIN <= v <= INT_MAX then Some(v) else None
  }

  /** A character other than a digit anywhere after the optional sign makes parseInt throw. */
  lemma ParseIntRejectsNonDigit(s: string, i: nat)
    requires i < |s| && !IsDigit(s[i])
    requires i > 0 || (s[0] != '-' && s[0] != '+')
    ensures ParseInt(s) == None
  {
    if |s| > 0 && (s[0] == '-' || s[0] == '+') {
      assert s[1..][i - 1] == s[i];
    }
  }

  /** The decimal digits of n, without leading zeros. */
  function NatDigits(n: nat): (s: string)
    ensures |s| >= 1 && AllDigits(s)
  {
    if n < 10 then [DigitChar(n)] else NatDigits(n / 10) + [DigitChar(n % 10)]
  }

  /** String.valueOf(int): a '-' for a negative value, then the digits of its magnitude. */
  function FormatInt(n: int): (s: string)
    ensures n >= 0 ==> AllDigits(s) && DigitsValue(s) == n
    ensures n < 0 ==> |s| >= 2 && s[0] == '-' && AllDigits(s[1..]) && DigitsValue(s[1..]) == -n
  {
    if n < 0 then
      NatDigitsValue(-n);
      assert ("-" + NatDigits(-n))[1..] == NatDigits(-n);
      "-" + NatDigits(-n)
    else
      NatDigitsValue(n);
      NatDigits(n)
  }

  lemma {:induction false} NatDigitsValue(n: nat)
    ensures DigitsValue(NatDigits(n)) == n
  {
    if n >= 10 {
      var s := NatDigits(n);
      assert s[..|s| - 1] == NatDigits(n / 10);
      NatDigitsValue(n / 10);
    }
  }

  lemma NatDigitsShort(n: nat)
    requires n < 100
    ensures |NatDigits(n)| <= 2
  {
  }

  /**
   * Reading back what String.valueOf wrote gives the same int; the text of a
   * value outside the 32-bit range makes parseInt throw.
   */
  lemma ParseFormatInt(n: int)
    ensures ParseInt(FormatInt(n)) == if INT_MIN <= n <= INT_MAX then Some(n) else None
  {
    if n < 0 {
      NatDigitsValue(-n);
      assert ("-" + NatDigits(-n))[1..] == NatDigits(-n);
    } else {
      NatDigitsValue(n);
    }
  }

  function ToLowerAscii(c: char): char {
    if 'A' <= c <= 'Z' then (c as int + 32) as char else c
  }

  /** The text with every ASCII capital letter turned into its small letter. */
  function LowerAscii(s: string): (r: string)
    ensures |r| == |s|
  {
    seq(|s|, i requires 0 <= i < |s| => ToLowerAscii(s[i]))
  }

  /**
   * String.equalsIgnoreCase, character by character; for the letters of "true"
   * no character outside ASCII compares equal.
   */
  function EqualsIgnoreCase(a: string, b: string): (e: bool)
  {
    |a| == |b| && (a == [] || (ToLowerAscii(a[0]) == ToLowerAscii(b[0]) && EqualsIgnoreCase(a[1..], b[1..])))
  }

  /** Two texts are equal ignoring case exactly when their lower-case forms are equal. */
  lemma {:induction false} EqualsIgnoreCaseLower(a: string, b: string)
    ensures EqualsIgnoreCase(a, b) <==> LowerAscii(a) == LowerAscii(b)
  {
    if |a| == |b| && a != [] {
      EqualsIgnoreCaseLower(a[1..], b[1..]);
      assert LowerAscii(a) == [ToLowerAscii(a[0])] + LowerAscii(a[1..]);
      assert LowerAscii(b) == [ToLowerAscii(b[0])] + LowerAscii(b[1..]);
      if LowerAscii(a) == LowerAscii(b) {
        assert LowerAscii(a)[1..] == LowerAscii(b)[1..];
      }
    }
  }

  /** Boolean.parseBoolean: "true".equalsIgnoreCase(s), which is false for null. */
  function ParseBoolean(s: string): (b: bool)
    ensures b <==> LowerAscii(s) == "true"
  {
    EqualsIgnoreCaseLower("true", s);
    assert LowerAscii("true") == "true";
    EqualsIgnoreCase("true", s)
  }

  /** "true" in any letter case is true; anything else, even with a blank around it, is false. */
  lemma ParseBooleanExamples()
    ensures ParseBoolean("true") && ParseBoolean("TRUE") && ParseBoolean("True") && ParseBoolean("tRuE")
    ensures !ParseBoolean("") && !ParseBoolean("false") && !ParseBoolean("yes")
    ensures !ParseBoolean(" true") && !ParseBoolean("true ")
  {
    assert LowerAscii("TRUE") == "true";
    assert LowerAscii("True") == "true";
    assert LowerAscii("tRuE") == "true";
    assert LowerAscii(" true")[0] == ' ';
    assert LowerAscii("false")[0] == 'f';
  }
}
