/**
 * Integer dictionary keys as JSON object keys: `json.dump` writes an int key
 * as its decimal string and the reader turns it back with `int(...)`.
 */
module DecimalKeys {

  import opened Options

  predicate IsDigit(c: char) {
    '0' <= c <= '9'
  }

  function DigitValue(c: char): nat
    requires IsDigit(c)
  {
    c as int - '0' as int
  }

  function DigitChar(d: nat): (c: char)
    requires d < 10
    ensures IsDigit(c) && DigitValue(c) == d
  {
    ('0' as int + d) as char
  }

  predicate AllDigits(s: string) {
    forall i :: 0 <= i < |s| ==> IsDigit(s[i])
  }

  /** The number a digit string denotes, read most significant digit first. */
  function DigitsValue(s: string): nat
    requires AllDigits(s)
  {
    if |s| == 0 then 0 else DigitsValue(s[..|s| - 1]) * 10 + DigitValue(s[|s| - 1])
  }

  /** The form `str(n)` produces: digits only, no leading zero unless the
      number is 0 itself. */
  predicate Canonical(s: string) {
    |s| >= 1 && AllDigits(s) && (|s| == 1 || s[0] != '0')
  }

  /** `str(n)` for a non-negative `n`. */
  function Decimal(n: nat): (s: string)
    ensures Canonical(s) && DigitsValue(s) == n
  {
    if n < 10 then [DigitChar(n)]
    else
      var p := Decimal(n / 10);
      var s := p + [DigitChar(n % 10)];
      assert s[..|s| - 1] == p;
      s
  }

  /** `int(s)` on the keys this model reads back: canonical decimal strings. */
  function ParseDecimal(s: string): (r: Option<nat>)
    ensures r.Some? <==> Canonical(s)
  {
    if Canonical(s) then Some(DigitsValue(s)) else None
  }

  /** A digit string is worth at least its leading digit. */
  lemma {:induction false} LeadingDigitBound(s: string)
    requires |s| >= 1 && AllDigits(s)
    ensures DigitsValue(s) >= DigitValue(s[0])
  {
    if |s| > 1 {
      var p := s[..|s| - 1];
      assert p[0] == s[0];
      LeadingDigitBound(p);
    }
  }

  lemma DivModDigit(v: nat, d: nat)
    requires v >= 1 && d < 10
    ensures (v * 10 + d) / 10 == v && (v * 10 + d) % 10 == d && v * 10 + d >= 10
  {
  }

  /** Every canonical string is the decimal form of the number it denotes. */
  lemma {:induction false} CanonicalIsDecimal(s: string)
    requires Canonical(s)
    ensures Decimal(DigitsValue(s)) == s
  {
    if |s| > 1 {
      var p := s[..|s| - 1];
      assert p[0] == s[0];
      assert Canonical(p);
      LeadingDigitBound(p);
      CanonicalIsDecimal(p);
      var v, d := DigitsValue(p), DigitValue(s[|s| - 1]);
      DivModDigit(v, d);
      assert DigitChar(d) == s[|s| - 1];
      assert p + [s[|s| - 1]] == s;
    }
  }

  /** Writing a key and parsing it back gives the key, and parsing succeeds
      only on strings that writing produces. */
  lemma DecimalRoundTrip(n: nat, s: string)
    ensures ParseDecimal(Decimal(n)) == Some(n)
    ensures ParseDecimal(s) == Some(n) <==> s == Decimal(n)
  {
    if ParseDecimal(s) == Some(n) {
      CanonicalIsDecimal(s);
    }
  }

  /** Distinct strings never parse to the same key. */
  lemma ParseInjective()
    ensures forall s1, s2 :: ParseDecimal(s1).Some? && ParseDecimal(s1) == ParseDecimal(s2) ==> s1 == s2
  {
    forall s1, s2 | ParseDecimal(s1).Some? && ParseDecimal(s1) == ParseDecimal(s2)
      ensures s1 == s2
    {
      CanonicalIsDecimal(s1);
      CanonicalIsDecimal(s2);
    }
  }
}
