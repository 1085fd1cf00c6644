/**
 Round labels such as "J3": the round number is what follows the first
 character, read as a decimal integer.
 */
module RoundLabel {
  import opened Wrappers

  predicate IsDigit(c: char) {
    '0' <= c <= '9'
  }

  predicate AllDigits(s: string) {
    forall i :: 0 <= i < |s| ==> IsDigit(s[i])
  }

  function DigitValue(c: char): nat
    requires IsDigit(c)
  {
    c as int - '0' as int
  }

  function DigitChar(d: nat): (c: char)
    requires d < 10
    ensures IsDigit(c) && DigitValue(c) == d
  {
    (d + '0' as int) as char
  }

  /** The value of a digit string, most significant digit first. */
  function DigitsValue(s: string): nat
    requires AllDigits(s)
  {
    if |s| == 0 then 0
    else DigitsValue(s[..|s| - 1]) * 10 + DigitValue(s[|s| - 1])
  }

  /** Reads a non-empty string of decimal digits; anything else is rejected. */
  function ParseNat(s: string): Option<nat> {
    if |s| > 0 && AllDigits(s) then Some(DigitsValue(s)) else None
  }

  /** The canonical decimal spelling of `n`: no sign, no leading zeros. */
  function ShowNat(n: nat): (s: string)
    ensures |s| > 0 && AllDigits(s)
    ensures |s| == 1 || s[0] != '0'
  {
    if n < 10 then [DigitChar(n)]
    else ShowNat(n / 10) + [DigitChar(n % 10)]
  }

  /** The round number of a label: drop the first character, parse the rest. */
  function ParseRoundLabel(text: string): (r: Option<nat>)
    ensures r.Some? <==> |text| > 1 && AllDigits(text[1..])
  {
    if |text| == 0 then None else ParseNat(text[1..])
  }

  /** Parsing undoes printing. */
  lemma {:induction false} ParseShowNat(n: nat)
    ensures ParseNat(ShowNat(n)) == Some(n)
  {
    var s := ShowNat(n);
    if n < 10 {
      assert s[..|s| - 1] == [];
    } else {
      ParseShowNat(n / 10);
      assert s[..|s| - 1] == ShowNat(n / 10);
      assert s[|s| - 1] == DigitChar(n % 10);
    }
    assert DigitsValue(s) == n;
  }

  /** A digit string without a leading zero has a positive value. */
  lemma {:induction false} LeadingDigitPositive(s: string)
    requires |s| > 0 && AllDigits(s) && s[0] != '0'
    ensures DigitsValue(s) > 0
  {
    if |s| > 1 {
      LeadingDigitPositive(s[..|s| - 1]);
    }
  }

  /** Printing undoes parsing for canonical spellings (no leading zero). */
  lemma {:induction false} ShowParseNat(s: string)
    requires ParseNat(s).Some?
    requires |s| == 1 || s[0] != '0'
    ensures ShowNat(ParseNat(s).value) == s
  {
    var n := DigitsValue(s);
    if |s| == 1 {
      assert s[..|s| - 1] == [];
      assert DigitsValue(s) == DigitsValue(s[..|s| - 1]) * 10 + DigitValue(s[|s| - 1]);
      assert n == DigitValue(s[0]);
      assert DigitChar(n) == s[0];
    } else {
      var init := s[..|s| - 1];
      LeadingDigitPositive(init);
      assert n / 10 == DigitsValue(init);
      assert n % 10 == DigitValue(s[|s| - 1]);
      ShowParseNat(init);
      assert DigitChar(n % 10) == s[|s| - 1];
      assert ShowNat(n) == ShowNat(n / 10) + [DigitChar(n % 10)];
      assert s == init + [s[|s| - 1]];
    }
  }

  /** Any one-character prefix followed by a canonical number labels that round. */
  lemma RoundLabelRoundTrip(prefix: char, n: nat)
    ensures ParseRoundLabel([prefix] + ShowNat(n)) == Some(n)
  {
    assert ([prefix] + ShowNat(n))[1..] == ShowNat(n);
    ParseShowNat(n);
  }
}
