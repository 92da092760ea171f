/** CNPJ check digits (`_validar_cnpj_avancado`, app.py:836-873): the
    fourteen digits of a Brazilian company registration number end with two
    check digits, each a weighted sum of the digits before it taken modulo 11.
    A number whose digits are all the same is refused even though its check
    digits add up. */
module Cnpj {
  import opened Text

  /** `re.sub(r'[^\d]', '', s)`: the digits of `s`, in order. */
  function DigitsOf(s: string): (r: string)
    ensures AllDigits(r) && |r| <= |s|
    ensures AllDigits(s) ==> r == s
  {
    if |s| == 0 then []
    else
      var rest := DigitsOf(s[1..]);
      if IsDigit(s[0]) then [s[0]] + rest else rest
  }

  lemma {:induction false} DigitsOfAppend(a: string, b: string)
    ensures DigitsOf(a + b) == DigitsOf(a) + DigitsOf(b)
  {
    if |a| == 0 {
      assert a + b == b;
    } else {
      assert (a + b)[1..] == a[1..] + b;
      DigitsOfAppend(a[1..], b);
    }
  }

  lemma DigitsOfSeparator(p: string, sep: char)
    requires !IsDigit(sep)
    ensures DigitsOf(p + [sep]) == DigitsOf(p)
  {
    assert DigitsOf([sep]) == [] by { assert [sep][1..] == []; }
    DigitsOfAppend(p, [sep]);
  }

  lemma DigitsOfDigitsAppend(p: string, e: string)
    requires AllDigits(e)
    ensures DigitsOf(p + e) == DigitsOf(p) + e
  {
    DigitsOfAppend(p, e);
  }

  /** `c * n`: the character `c` repeated `n` times. */
  function Repeat(c: char, n: nat): (r: string)
    ensures |r| == n && forall i | 0 <= i < n :: r[i] == c
  {
    if n == 0 then [] else [c] + Repeat(c, n - 1)
  }

  // ---------------------------------------------------------------------------
  // Weights and check digits
  // ---------------------------------------------------------------------------

  /** One step of `peso`: it counts down and wraps from 1 back to 9. */
  function NextWeight(p: int): int {
    if p - 1 == 1 then 9 else p - 1
  }

  /** The weight of position `i` when the count starts at `start`. */
  function Weight(start: int, i: nat): int {
    if i == 0 then start else NextWeight(Weight(start, i - 1))
  }

  /** The sum of the first `n` digits of `d`, each times its weight. */
  function WeightedSum(d: string, start: int, n: nat): int
    requires n <= |d| && AllDigits(d)
  {
    if n == 0 then 0 else WeightedSum(d, start, n - 1) + DigitValue(d[n - 1]) * Weight(start, n - 1)
  }

  /** A remainder below 2 gives 0, any other gives 11 minus it. */
  function CheckDigit(sum: int): (r: nat)
    ensures r < 10
    ensures r == 0 <==> sum % 11 < 2
    ensures r > 0 ==> (sum + r) % 11 == 0
  {
    var rest := sum % 11;
    if rest < 2 then 0 else 11 - rest
  }

  /** The weights of the two checks are the ones the CNPJ standard fixes:
      5 4 3 2 9 8 7 6 5 4 3 2 for the first check digit and
      6 5 4 3 2 9 8 7 6 5 4 3 2 for the second. */
  lemma StandardWeights()
    ensures seq(12, i requires 0 <= i => Weight(5, i)) == [5, 4, 3, 2, 9, 8, 7, 6, 5, 4, 3, 2]
    ensures seq(13, i requires 0 <= i => Weight(6, i)) == [6, 5, 4, 3, 2, 9, 8, 7, 6, 5, 4, 3, 2]
  {
    assert Weight(5, 4) == 9 && Weight(5, 8) == 5 && Weight(5, 11) == 2;
    assert Weight(6, 5) == 9 && Weight(6, 9) == 5 && Weight(6, 12) == 2;
  }

  // ---------------------------------------------------------------------------
  // Validation
  // ---------------------------------------------------------------------------

  /** The two check digits of twelve base digits. */
  function CheckDigits(base: string): (r: string)
    requires |base| == 12 && AllDigits(base)
    ensures |r| == 2 && AllDigits(r)
  {
    var d1 := CheckDigit(WeightedSum(base, 5, 12));
    var d2 := CheckDigit(WeightedSum(base + [DigitChar(d1)], 6, 13));
    [DigitChar(d1), DigitChar(d2)]
  }

  /** Twelve base digits followed by their check digits. */
  function Complete(base: string): (r: string)
    requires |base| == 12 && AllDigits(base)
    ensures |r| == 14 && AllDigits(r) && r[..12] == base
  {
    base + CheckDigits(base)
  }

  /** `_validar_cnpj_avancado`, as a predicate on the text it is given. */
  predicate IsValidCnpj(s: string) {
    var d := DigitsOf(s);
    |d| == 14 && d != Repeat(d[0], 14) &&
    CheckDigit(WeightedSum(d, 5, 12)) == DigitValue(d[12]) &&
    CheckDigit(WeightedSum(d, 6, 13)) == DigitValue(d[13])
  }

  /** `_validar_cnpj_avancado` as written: strip, compare the length, refuse
      a repeated digit, then accumulate each weighted sum with a weight that
      counts down from 5 (and from 6) and wraps from 1 to 9. */
  method ValidateCnpj(cnpj: string) returns (ok: bool)
    ensures ok == IsValidCnpj(cnpj)
  {
    var d := DigitsOf(cnpj);
    if |d| != 14 {
      return false;
    }
    if d == Repeat(d[0], 14) {
      return false;
    }
    var soma := 0;
    var peso := 5;
    for i := 0 to 12
      invariant soma == WeightedSum(d, 5, i)
      invariant peso == Weight(5, i)
    {
      soma := soma + DigitValue(d[i]) * peso;
      peso := peso - 1;
      if peso == 1 {
        peso := 9;
      }
    }
    var digito1 := if soma % 11 < 2 then 0 else 11 - soma % 11;
    if digito1 != DigitValue(d[12]) {
      return false;
    }
    soma := 0;
    peso := 6;
    for i := 0 to 13
      invariant soma == WeightedSum(d, 6, i)
      invariant peso == Weight(6, i)
    {
      soma := soma + DigitValue(d[i]) * peso;
      peso := peso - 1;
      if peso == 1 {
        peso := 9;
      }
    }
    var digito2 := if soma % 11 < 2 then 0 else 11 - soma % 11;
    return digito2 == DigitValue(d[13]);
  }

  /** The weighted sum reads only the digits it weighs. */
  lemma {:induction false} WeightedSumPrefix(d: string, e: string, start: int, n: nat)
    requires n <= |d| && n <= |e| && AllDigits(d) && AllDigits(e) && d[..n] == e[..n]
    ensures WeightedSum(d, start, n) == WeightedSum(e, start, n)
  {
    if n > 0 {
      assert d[n - 1] == d[..n][n - 1] == e[..n][n - 1] == e[n - 1];
      assert d[..n - 1] == d[..n][..n - 1];
      assert e[..n - 1] == e[..n][..n - 1];
      WeightedSumPrefix(d, e, start, n - 1);
    }
  }

  /** A number passes exactly when its digits are twelve base digits followed
      by their check digits, not all the same. */
  lemma ValidIffComplete(s: string)
    ensures IsValidCnpj(s) <==>
      var d := DigitsOf(s);
      |d| == 14 && d == Complete(d[..12]) && d != Repeat(d[0], 14)
  {
    var d := DigitsOf(s);
    if |d| == 14 {
      var base := d[..12];
      var c := Complete(base);
      var d1 := CheckDigit(WeightedSum(base, 5, 12));
      WeightedSumPrefix(d, base, 5, 12);
      assert c[12] == DigitChar(d1);
      WeightedSumPrefix(d, c, 5, 12);
      assert c == base + [DigitChar(d1)] + [c[13]];
      if DigitValue(d[12]) == d1 {
        assert d[..13] == base + [DigitChar(d1)] by {
          assert d[..13] == d[..12] + [d[12]];
          DigitRoundTrip(d[12]);
        }
        WeightedSumPrefix(d, base + [DigitChar(d1)], 6, 13);
      }
      if d == c {
        DigitValueOfChar(d1);
      }
      if IsValidCnpj(s) {
        DigitRoundTrip(d[12]);
        DigitRoundTrip(d[13]);
        assert d == base + [d[12], d[13]];
      }
    }
  }

  lemma DigitRoundTrip(c: char)
    requires IsDigit(c)
    ensures DigitChar(DigitValue(c)) == c
  {
  }

  lemma DigitValueOfChar(n: nat)
    requires n < 10
    ensures DigitValue(DigitChar(n)) == n
  {
  }

  /** Completing twelve base digits always passes, unless the result is a
      repeated digit. */
  lemma CompleteIsValid(base: string)
    requires |base| == 12 && AllDigits(base)
    requires Complete(base) != Repeat(base[0], 14)
    ensures IsValidCnpj(Complete(base))
  {
    var c := Complete(base);
    assert DigitsOf(c) == c;
    assert c[..12] == base;
    ValidIffComplete(c);
  }

  /** Changing only the last digit of a valid number makes it fail: the
      second check digit is determined by the thirteen before it. */
  lemma LastDigitChangeDetected(d: string, x: char)
    requires |d| == 14 && AllDigits(d) && IsValidCnpj(d)
    requires IsDigit(x) && x != d[13]
    ensures !IsValidCnpj(d[..13] + [x])
  {
    var e := d[..13] + [x];
    assert DigitsOf(d) == d && DigitsOf(e) == e;
    assert e[..12] == d[..12];
    ValidIffComplete(d);
    ValidIffComplete(e);
    assert e[13] != d[13];
  }

  /** Changing only the first check digit of a valid number makes it fail:
      it is determined by the twelve base digits. */
  lemma FirstCheckDigitChangeDetected(d: string, x: char)
    requires |d| == 14 && AllDigits(d) && IsValidCnpj(d)
    requires IsDigit(x) && x != d[12]
    ensures !IsValidCnpj(d[..12] + [x] + [d[13]])
  {
    var e := d[..12] + [x] + [d[13]];
    assert DigitsOf(d) == d && DigitsOf(e) == e;
    assert e[..12] == d[..12];
    ValidIffComplete(d);
    ValidIffComplete(e);
    assert e[12] != d[12];
  }

  /** Fourteen zeros have check digits that add up, and are still refused. */
  lemma ZerosRefused()
    ensures CheckDigit(WeightedSum(Repeat('0', 14), 5, 12)) == DigitValue('0')
    ensures CheckDigit(WeightedSum(Repeat('0', 14), 6, 13)) == DigitValue('0')
    ensures !IsValidCnpj(Repeat('0', 14))
  {
    var z := Repeat('0', 14);
    ZeroSum(z, 5, 12);
    ZeroSum(z, 6, 13);
    assert DigitsOf(z) == z;
  }

  lemma {:induction false} ZeroSum(d: string, start: int, n: nat)
    requires n <= |d| && AllDigits(d) && forall i | 0 <= i < |d| :: d[i] == '0'
    ensures WeightedSum(d, start, n) == 0
  {
    if n > 0 {
      ZeroSum(d, start, n - 1);
    }
  }

  // ---------------------------------------------------------------------------
  // The written form
  // ---------------------------------------------------------------------------

  /** The punctuated form the invoice scan looks for,
      "NN.NNN.NNN/NNNN-NN". */
  function FormatCnpj(d: string): string
    requires |d| == 14
  {
    d[..2] + "." + d[2..5] + "." + d[5..8] + "/" + d[8..12] + "-" + d[12..]
  }

  /** Stripping the punctuation of the written form gives the digits back. */
  lemma FormatCnpjRoundTrip(d: string)
    requires |d| == 14 && AllDigits(d)
    ensures DigitsOf(FormatCnpj(d)) == d
  {
    var p := d[..2];
    assert DigitsOf(p) == d[..2];
    p := SeparatorThenDigits(d, p, 2, '.', 5);
    p := SeparatorThenDigits(d, p, 5, '.', 8);
    p := SeparatorThenDigits(d, p, 8, '/', 12);
    p := SeparatorThenDigits(d, p, 12, '-', 14);
    assert d[..14] == d;
  }

  /** One step of the written form: a separator, then the next digits. */
  lemma SeparatorThenDigits(d: string, p: string, i: nat, sep: char, j: nat) returns (q: string)
    requires i <= j <= |d| && AllDigits(d) && !IsDigit(sep)
    requires DigitsOf(p) == d[..i]
    ensures q == p + [sep] + d[i..j]
    ensures DigitsOf(q) == d[..j]
  {
    q := p + [sep] + d[i..j];
    DigitsOfSeparator(p, sep);
    DigitsOfDigitsAppend(p + [sep], d[i..j]);
    assert d[..i] + d[i..j] == d[..j];
  }
}
