/** Decimal rendering of naturals, as Python's `f"{n}"` and `f"{n:0Wd}"` produce it. */
module Decimal {

  predicate IsDigit(c: char) { '0' <= c <= '9' }

  predicate AllDigits(s: string) { forall j :: 0 <= j < |s| ==> IsDigit(s[j]) }

  function DigitChar(d: nat): (c: char)
    requires d < 10
    ensures IsDigit(c) && c as int - '0' as int == d
  {
    "0123456789"[d]
  }

  function DigitValue(c: char): nat
    requires IsDigit(c)
  {
    c as int - '0' as int
  }

  function Pow10(w: nat): (p: nat)
    ensures p >= 1
  {
    if w == 0 then 1 else 10 * Pow10(w - 1)
  }

  /** `f"{n}"`: the shortest decimal numeral for `n`. */
  function Digits(n: nat): string
  {
    if n < 10 then [DigitChar(n)] else Digits(n / 10) + [DigitChar(n % 10)]
  }

  /** The numeral is a non-empty string of digits with a leading zero only for `0` itself. */
  lemma {:induction false} DigitsSpec(n: nat)
    ensures var s := Digits(n);
            && 1 <= |s| && AllDigits(s)
            && (s[0] == '0' <==> n == 0)
            && (|s| > 1 ==> s[0] != '0')
  {
    if n >= 10 {
      DigitsSpec(n / 10);
    }
  }

  /** The number a string of digits denotes (leading zeros allowed). */
  function Value(s: string): nat
    requires AllDigits(s)
  {
    if |s| == 0 then 0 else 10 * Value(s[..|s| - 1]) + DigitValue(s[|s| - 1])
  }

  function Zeros(w: nat): (z: string)
    ensures |z| == w && forall j :: 0 <= j < w ==> z[j] == '0'
  {
    seq(w, _ => '0')
  }

  /** `f"{n:0<width>d}"`: the numeral of `n`, left-padded with '0' to at least `width` characters. */
  function Padded(n: nat, width: nat): string
  {
    var d := Digits(n);
    if |d| < width then Zeros(width - |d|) + d else d
  }

  /** The padded numeral is all digits, `width` long unless the numeral is longer, and denotes `n`. */
  lemma PaddedSpec(n: nat, width: nat)
    ensures var s := Padded(n, width);
            && AllDigits(s)
            && |s| == (if |Digits(n)| < width then width else |Digits(n)|)
            && Value(s) == n
  {
    var d := Digits(n);
    ValueOfDigits(n);
    if |d| < width {
      ValueIgnoresLeadingZeros(Zeros(width - |d|), d);
    }
  }

  /** A numeral denotes the number it was made from. */
  lemma {:induction false} ValueOfDigits(n: nat)
    ensures AllDigits(Digits(n)) && Value(Digits(n)) == n
  {
    DigitsSpec(n);
    if n >= 10 {
      var d := Digits(n);
      assert d[..|d| - 1] == Digits(n / 10);
      ValueOfDigits(n / 10);
    }
  }

  lemma {:induction false} ValueOfZeros(w: nat)
    ensures Value(Zeros(w)) == 0
  {
    if w > 0 {
      assert Zeros(w)[..w - 1] == Zeros(w - 1);
      ValueOfZeros(w - 1);
    }
  }

  lemma {:induction false} ValueIgnoresLeadingZeros(z: string, s: string)
    requires forall j :: 0 <= j < |z| ==> z[j] == '0'
    requires AllDigits(s)
    ensures AllDigits(z + s) && Value(z + s) == Value(s)
  {
    assert AllDigits(z + s);
    if |s| == 0 {
      assert z + s == z == Zeros(|z|);
      ValueOfZeros(|z|);
    } else {
      assert (z + s)[..|z + s| - 1] == z + s[..|s| - 1];
      ValueIgnoresLeadingZeros(z, s[..|s| - 1]);
    }
  }

  /** Distinct numbers get distinct padded numerals, whatever the width. */
  lemma PaddedInjective(a: nat, b: nat, width: nat)
    requires Padded(a, width) == Padded(b, width)
    ensures a == b
  {
    PaddedSpec(a, width);
    PaddedSpec(b, width);
  }

  /** The numeral of `n` fits in `w >= 1` characters exactly when `n < 10^w`. */
  lemma {:induction false} DigitsLength(n: nat, w: nat)
    requires w >= 1
    ensures |Digits(n)| <= w <==> n < Pow10(w)
  {
    if n < 10 {
      Pow10AtLeastTen(w);
    } else if w == 1 {
      assert Pow10(w) == 10;
    } else {
      DigitsLength(n / 10, w - 1);
    }
  }

  lemma {:induction false} Pow10AtLeastTen(w: nat)
    requires w >= 1
    ensures Pow10(w) >= 10
  {
    if w > 1 {
      Pow10AtLeastTen(w - 1);
    }
  }
}
