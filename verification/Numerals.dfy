/** Decimal numerals as the report prints and reads them. */
module Numerals {
  import opened Options

  predicate IsDigit(c: char) { '0' <= c <= '9' }

  predicate AllDigits(s: string) { forall c :: c in s ==> IsDigit(c) }

  function Digit(n: nat): char
    requires n < 10
  {
    ['0', '1', '2', '3', '4', '5', '6', '7', '8', '9'][n]
  }

  function Value(c: char): nat
    requires IsDigit(c)
  {
    (c as int) - ('0' as int)
  }

  function ShowNat(n: nat): string {
    if n < 10 then [Digit(n)] else ShowNat(n / 10) + [Digit(n % 10)]
  }

  function Digits(s: string): nat
    requires AllDigits(s)
  {
    if s == "" then 0 else 10 * Digits(s[..|s| - 1]) + Value(s[|s| - 1])
  }

  /** An unsigned parse: at least one digit, and nothing else but a leading plus. */
  function ReadNat(s: string): Option<nat> {
    var t := if s != "" && s[0] == '+' then s[1..] else s;
    if t != "" && AllDigits(t) then Some(Digits(t)) else None
  }

  lemma {:induction false} ShowsDigits(n: nat)
    ensures AllDigits(ShowNat(n)) && ShowNat(n) != ""
  {
    if n >= 10 { ShowsDigits(n / 10); }
  }

  lemma {:induction false} DigitsBack(n: nat)
    ensures AllDigits(ShowNat(n)) && Digits(ShowNat(n)) == n
  {
    var s := ShowNat(n);
    ShowsDigits(n);
    if n < 10 {
      assert s[..0] == "";
    } else {
      DigitsBack(n / 10);
      assert s[..|s| - 1] == ShowNat(n / 10);
    }
  }

  lemma ReadsBack(n: nat)
    ensures AllDigits(ShowNat(n)) && ShowNat(n) != "" && ReadNat(ShowNat(n)) == Some(n)
  {
    ShowsDigits(n);
    DigitsBack(n);
    assert IsDigit(ShowNat(n)[0]);
  }

  /** The text a finite or non-finite float is displayed as: never an exponent. */
  predicate IsFloatText(s: string) {
    var t := if s != "" && s[0] == '-' then s[1..] else s;
    t == "inf" || t == "NaN" || exists k :: 0 <= k <= |t| && IsDecimal(t, k)
  }

  /** k digits, and if there is more, a point and at least one digit. */
  predicate IsDecimal(t: string, k: nat)
    requires k <= |t|
  {
    && k > 0 && AllDigits(t[..k])
    && (k == |t| || (t[k] == '.' && k + 1 < |t| && AllDigits(t[k + 1..])))
  }

  predicate FloatChar(c: char) { IsDigit(c) || c == '.' || c == '-' || c in "infNaN" }

  lemma FloatTextChars(s: string)
    requires IsFloatText(s)
    ensures s != "" && forall c :: c in s ==> FloatChar(c)
  {
    var t := if s != "" && s[0] == '-' then s[1..] else s;
    if t != "inf" && t != "NaN" {
      var k :| 0 <= k <= |t| && IsDecimal(t, k);
      DecimalChars(t, k);
    }
  }

  lemma DecimalChars(t: string, k: nat)
    requires k <= |t| && IsDecimal(t, k)
    ensures t != "" && forall c :: c in t ==> FloatChar(c)
  {
    forall i | 0 <= i < |t| ensures FloatChar(t[i]) {
      if i < k {
        assert t[..k][i] == t[i];
      } else if i > k {
        assert t[k + 1..][i - k - 1] == t[i];
      }
    }
  }
}
