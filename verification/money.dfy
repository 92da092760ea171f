/** Monetary values (`_extrair_valores_monetarios_completos` and
    `_identificar_tipo_valor`, app.py:189-250): the literal parse, the subtype
    tag, and the extraction over the list of currency patterns. Amounts are
    exact reals; Python's binary floating point is not modelled. */
module Money {
  import opened Wrappers
  import opened Text
  import opened Oracles
  import opened Seqs
  import opened Tagging

  // ---------------------------------------------------------------------------
  // Python's float() on digit strings
  // ---------------------------------------------------------------------------

  /** The offset of the first '.', or the length when there is none. */
  function DotIndex(s: string): (k: nat)
    ensures k <= |s|
    ensures forall i | 0 <= i < k :: s[i] != '.'
    ensures k < |s| ==> s[k] == '.'
  {
    if |s| == 0 || s[0] == '.' then 0 else 1 + DotIndex(s[1..])
  }

  /** `x` moved `w` decimal places to the right of the point, one place at a
      time: `x / 10^w`. */
  function DecimalShift(x: real, w: nat): (r: real)
    ensures x >= 0.0 ==> r >= 0.0
  {
    if w == 0 then x else DecimalShift(x, w - 1) / 10.0
  }

  lemma ShiftTwo(x: real)
    ensures DecimalShift(x, 2) == x / 100.0
  {
    assert DecimalShift(x, 1) == x / 10.0;
  }

  lemma ShiftThree(x: real)
    ensures DecimalShift(x, 3) == x / 1000.0
  {
    ShiftTwo(x);
  }

  lemma ShiftFive(x: real)
    ensures DecimalShift(x, 5) == x / 100000.0
  {
    ShiftThree(x);
    assert DecimalShift(x, 4) == x / 10000.0;
  }

  /** The value of `ip.fp`. */
  function DecimalValue(ip: string, fp: string): real
    requires AllDigits(ip) && AllDigits(fp)
  {
    DigitsValue(ip) as real + DecimalShift(DigitsValue(fp) as real, |fp|)
  }

  /** Python's `float(s)` on the strings the currency patterns can hand it:
      digits with at most one '.', and at least one digit. Anything else
      raises `ValueError`, which is `None` here. */
  function ParseFloat(s: string): (r: Option<real>)
    ensures r.Some? ==> r.value >= 0.0
  {
    var k := DotIndex(s);
    var ip := s[..k];
    var fp := if k < |s| then s[k + 1..] else "";
    if AllDigits(ip) && AllDigits(fp) && 0 < |ip| + |fp| then Some(DecimalValue(ip, fp)) else None
  }

  lemma ParseFloatWhole(a: string)
    requires AllDigits(a) && 0 < |a|
    ensures ParseFloat(a) == Some(DigitsValue(a) as real)
  {
    DotIndexOfDigits(a);
    assert a[..|a|] == a;
    assert DecimalValue(a, "") == DigitsValue(a) as real by {
      assert DigitsValue("") == 0;
    }
  }

  lemma DotIndexOfDigits(a: string)
    requires AllDigits(a)
    ensures DotIndex(a) == |a|
  {
  }

  lemma ParseFloatPoint(a: string, b: string)
    requires AllDigits(a) && AllDigits(b) && 0 < |a| + |b|
    ensures ParseFloat(a + ['.'] + b) == Some(DecimalValue(a, b))
  {
    var s := a + ['.'] + b;
    assert s == a + (['.'] + b);
    DotIndexAfterDigits(a, ['.'] + b);
    assert s[..|a|] == a && s[|a| + 1..] == b;
  }

  lemma {:induction false} DotIndexAfterDigits(a: string, rest: string)
    requires AllDigits(a) && |rest| > 0 && rest[0] == '.'
    ensures DotIndex(a + rest) == |a|
  {
    if |a| > 0 {
      assert (a + rest)[1..] == a[1..] + rest;
      DotIndexAfterDigits(a[1..], rest);
    } else {
      assert a + rest == rest;
    }
  }

  /** A second '.' makes `float()` raise. */
  lemma TwoPointsFail(s: string, i: nat, j: nat)
    requires i < j < |s| && s[i] == '.' && s[j] == '.'
    ensures ParseFloat(s) == None
  {
    var k := DotIndex(s);
    assert k <= i;
    assert s[k + 1..][j - k - 1] == '.';
  }

  // ---------------------------------------------------------------------------
  // The separator rewrite
  // ---------------------------------------------------------------------------

  /** `s.replace('.', '').replace(',', '.')`: Brazilian thousands dots are
      dropped and the decimal comma becomes a point. */
  function CommaDecimal(s: string): string {
    ReplaceAll(RemoveAll(s, '.'), ',', '.')
  }

  /** The string handed to `float()` (app.py:217-224): with both separators it
      is rewritten as Brazilian; with only commas, the commas are deleted as
      thousands separators; otherwise it is passed unchanged. */
  function NumericLiteral(s: string): string {
    if '.' in s && ',' in s then CommaDecimal(s)
    else if ',' in s then RemoveAll(s, ',')
    else s
  }

  function ParseMoneyLiteral(s: string): Option<real> {
    ParseFloat(NumericLiteral(s))
  }

  lemma RemoveAround(a: string, sep: char, b: string, c: char)
    ensures RemoveAll(a + [sep] + b, c) == RemoveAll(a, c) + RemoveAll([sep], c) + RemoveAll(b, c)
  {
    RemoveAllAppend(a + [sep], b, c);
    RemoveAllAppend(a, [sep], c);
  }

  /** Removing `c` around a separator that is not `c` keeps the separator. */
  lemma RemoveAroundKept(a: string, sep: char, b: string, c: char)
    requires sep != c
    ensures RemoveAll(a + [sep] + b, c) == RemoveAll(a, c) + [sep] + RemoveAll(b, c)
  {
    RemoveAround(a, sep, b, c);
    assert RemoveAll([sep], c) == [sep] by { assert [sep][1..] == []; }
  }

  /** Removing `c` around an occurrence of `c` drops it. */
  lemma RemoveAroundDropped(a: string, b: string, c: char)
    ensures RemoveAll(a + [c] + b, c) == RemoveAll(a, c) + RemoveAll(b, c)
  {
    RemoveAround(a, c, b, c);
    assert RemoveAll([c], c) == [] by { assert [c][1..] == []; }
  }

  /** With both separators, the literal goes through the Brazilian rewrite. */
  lemma BothSeparatorsRewritten(s: string)
    requires '.' in s && ',' in s
    ensures ParseMoneyLiteral(s) == ParseFloat(ReplaceAll(RemoveAll(s, '.'), ',', '.'))
  {
  }

  lemma ReplaceOneComma(a: string, b: string)
    requires AllDigits(a) && AllDigits(b)
    ensures ReplaceAll(a + [','] + b, ',', '.') == a + ['.'] + b
  {
  }

  lemma DigitsLackChar(a: string, c: char)
    requires AllDigits(a) && !IsDigit(c)
    ensures c !in a
  {
  }

  // ---------------------------------------------------------------------------
  // Written amounts, for the round-trip lemmas
  // ---------------------------------------------------------------------------

  /** `n` written with exactly `w` digits, zero-padded. */
  function Fixed(n: nat, w: nat): (r: string)
    requires n < Pow10(w)
    ensures |r| == w && AllDigits(r) && DigitsValue(r) == n
  {
    if w == 0 then []
    else
      var prefix := Fixed(n / 10, w - 1);
      var r := prefix + [DigitChar(n % 10)];
      assert r[..|r| - 1] == prefix;
      r
  }

  /** `n` written with a separator every three digits from the right. */
  function Grouped(n: nat, sep: char): (r: string)
    requires !IsDigit(sep)
    ensures 0 < |r|
    ensures forall i | 0 <= i < |r| :: IsDigit(r[i]) || r[i] == sep
    ensures sep in r <==> n >= 1000
    ensures AllDigits(RemoveAll(r, sep)) && DigitsValue(RemoveAll(r, sep)) == n
  {
    if n < 1000 then
      var r := NatToDigits(n);
      RemoveAllDigitsNoOp(r, sep);
      r
    else
      var head := Grouped(n / 1000, sep);
      var tail := Fixed(n % 1000, 3);
      GroupedStep(n, sep, head, tail);
      head + [sep] + tail
  }

  lemma GroupedStep(n: nat, sep: char, head: string, tail: string)
    requires !IsDigit(sep) && AllDigits(tail) && |tail| == 3 && DigitsValue(tail) == n % 1000
    requires AllDigits(RemoveAll(head, sep)) && DigitsValue(RemoveAll(head, sep)) == n / 1000
    ensures AllDigits(RemoveAll(head + [sep] + tail, sep))
    ensures DigitsValue(RemoveAll(head + [sep] + tail, sep)) == n
  {
    var d := RemoveAll(head, sep);
    assert RemoveAll(head + [sep] + tail, sep) == d + tail by {
      RemoveAroundDropped(head, tail, sep);
      RemoveAllDigitsNoOp(tail, sep);
    }
    ThousandsAppend(n, d, tail);
  }

  lemma ThousandsAppend(n: nat, d: string, tail: string)
    requires AllDigits(d) && AllDigits(tail) && |tail| == 3
    requires DigitsValue(d) == n / 1000 && DigitsValue(tail) == n % 1000
    ensures AllDigits(d + tail) && DigitsValue(d + tail) == n
  {
    DigitsValueAppend(d, tail);
    assert Pow10(|tail|) == 1000 by { assert |tail| == 3; }
  }

  /** An amount in cents written the Brazilian way, "1.234,56". */
  function FormatBrazilian(cents: nat): string {
    Grouped(cents / 100, '.') + [','] + Fixed(cents % 100, 2)
  }

  /** An amount in cents written the US way, "1,234.56". */
  function FormatUS(cents: nat): string {
    Grouped(cents / 100, ',') + ['.'] + Fixed(cents % 100, 2)
  }

  /** How a literal with both separators is read: its dots are dropped and
      what remains must be digits, one comma, digits. */
  lemma ReadBothSeparators(s: string, d: string, f: string)
    requires '.' in s && ',' in s
    requires AllDigits(d) && AllDigits(f) && 0 < |d| + |f|
    requires RemoveAll(s, '.') == d + [','] + f
    ensures ParseMoneyLiteral(s) == Some(DecimalValue(d, f))
  {
    BothSeparatorsRewritten(s);
    ReplaceOneComma(d, f);
    ParseFloatPoint(d, f);
  }

  /** How a literal with commas and no dot is read: the commas are dropped. */
  lemma ReadCommasOnly(s: string, d: string)
    requires '.' !in s && ',' in s
    requires AllDigits(d) && 0 < |d| && RemoveAll(s, ',') == d
    ensures ParseMoneyLiteral(s) == Some(DigitsValue(d) as real)
  {
    ParseFloatWhole(d);
  }

  /** A Brazilian amount of at least 1.000,00 carries both separators and is
      read back exactly. */
  lemma BrazilianRoundTrip(cents: nat)
    requires cents / 100 >= 1000
    ensures ParseMoneyLiteral(FormatBrazilian(cents)) == Some(DecimalShift(cents as real, 2))
  {
    var g, f := Grouped(cents / 100, '.'), Fixed(cents % 100, 2);
    var s := g + [','] + f;
    assert '.' in s by {
      assert '.' in g;
    }
    RemoveAround(g, ',', f, '.');
    RemoveAllDigitsNoOp(f, '.');
    assert RemoveAll([','], '.') == [','];
    ReadBrazilianParts(cents, g, f, RemoveAll(g, '.'));
    assert FormatBrazilian(cents) == s;
  }

  lemma ReadBrazilianParts(cents: nat, g: string, f: string, d: string)
    requires AllDigits(d) && AllDigits(f) && |f| == 2
    requires '.' in g + [','] + f
    requires RemoveAll(g + [','] + f, '.') == d + [','] + f
    requires DigitsValue(d) == cents / 100 && DigitsValue(f) == cents % 100
    ensures ParseMoneyLiteral(g + [','] + f) == Some(DecimalShift(cents as real, 2))
  {
    CommaBetween(g, f);
    ReadBothSeparators(g + [','] + f, d, f);
    CentsValue(cents, d, f);
  }

  lemma CommaBetween(g: string, f: string)
    ensures ',' in g + [','] + f
  {
    assert (g + [','] + f)[|g|] == ',';
  }

  lemma CentsValue(cents: nat, d: string, f: string)
    requires AllDigits(d) && AllDigits(f) && |f| == 2
    requires DigitsValue(d) == cents / 100 && DigitsValue(f) == cents % 100
    ensures DecimalValue(d, f) == DecimalShift(cents as real, 2)
  {
    ShiftTwo(DigitsValue(f) as real);
    ShiftTwo(cents as real);
  }

  /** Below 1.000,00 a Brazilian amount has only its decimal comma, which is
      deleted as a thousands separator: "950,00" reads as 95000. */
  lemma BrazilianSmallAmountReadsAsCents(cents: nat)
    requires cents / 100 < 1000
    ensures ParseMoneyLiteral(FormatBrazilian(cents)) == Some(cents as real)
  {
    var g, f := NatToDigits(cents / 100), Fixed(cents % 100, 2);
    ReadCommaParts(cents, g, f);
    assert FormatBrazilian(cents) == g + [','] + f;
  }

  lemma ReadCommaParts(cents: nat, g: string, f: string)
    requires AllDigits(g) && AllDigits(f) && |f| == 2 && 0 < |g|
    requires DigitsValue(g) == cents / 100 && DigitsValue(f) == cents % 100
    ensures ParseMoneyLiteral(g + [','] + f) == Some(cents as real)
  {
    CentsDigits(cents, g, f);
    ReadCommaLiteral(g, f);
  }

  lemma CentsDigits(cents: nat, g: string, f: string)
    requires AllDigits(g) && AllDigits(f) && |f| == 2
    requires DigitsValue(g) == cents / 100 && DigitsValue(f) == cents % 100
    ensures AllDigits(g + f) && DigitsValue(g + f) == cents
  {
    DigitsValueAppend(g, f);
    assert Pow10(2) == 100;
  }

  lemma ReadCommaLiteral(g: string, f: string)
    requires AllDigits(g) && AllDigits(f) && 0 < |g|
    ensures AllDigits(g + f)
    ensures ParseMoneyLiteral(g + [','] + f) == Some(DigitsValue(g + f) as real)
  {
    OneCommaNoDot(g, f);
    DropOneComma(g, f);
    ReadCommasOnly(g + [','] + f, g + f);
  }

  lemma OneCommaNoDot(g: string, f: string)
    requires AllDigits(g) && AllDigits(f)
    ensures '.' !in g + [','] + f && ',' in g + [','] + f
  {
    var s := g + [','] + f;
    DigitsLackChar(g, '.');
    DigitsLackChar(f, '.');
    assert s[|g|] == ',';
  }

  lemma DropOneComma(g: string, f: string)
    requires AllDigits(g) && AllDigits(f)
    ensures RemoveAll(g + [','] + f, ',') == g + f
  {
    RemoveAround(g, ',', f, ',');
    RemoveAllDigitsNoOp(g, ',');
    RemoveAllDigitsNoOp(f, ',');
    assert RemoveAll([','], ',') == [];
  }

  /** A US amount between 1,000.00 and 999,999.99 has both separators, goes
      through the Brazilian rewrite, and reads as the cents over 100000:
      "1,234.56" gives 1.23456. */
  lemma USAmountReadsShifted(cents: nat)
    requires 1000 <= cents / 100 < 1000000
    ensures ParseMoneyLiteral(FormatUS(cents)) == Some(DecimalShift(cents as real, 5))
  {
    var n := cents / 100;
    var a, b, f := NatToDigits(n / 1000), Fixed(n % 1000, 3), Fixed(cents % 100, 2);
    assert Grouped(n, ',') == a + [','] + b;
    ReadUSParts(cents, a, b, f);
    assert FormatUS(cents) == a + [','] + b + ['.'] + f;
  }

  lemma ReadUSParts(cents: nat, a: string, b: string, f: string)
    requires AllDigits(a) && AllDigits(b) && AllDigits(f) && |b| == 3 && |f| == 2
    requires DigitsValue(a) == cents / 100 / 1000
    requires DigitsValue(b) == cents / 100 % 1000 && DigitsValue(f) == cents % 100
    ensures ParseMoneyLiteral(a + [','] + b + ['.'] + f) == Some(DecimalShift(cents as real, 5))
  {
    ShiftedValue(cents, a, b, f);
    ReadUSLiteral(a, b, f, DecimalShift(cents as real, 5));
  }

  lemma ReadUSLiteral(a: string, b: string, f: string, v: real)
    requires AllDigits(a) && AllDigits(b) && AllDigits(f) && 0 < |b|
    requires DecimalValue(a, b + f) == v
    ensures ParseMoneyLiteral(a + [','] + b + ['.'] + f) == Some(v)
  {
    USSeparators(a, b, f);
    DigitsLackChar(a, '.');
    DigitsLackChar(b, '.');
    DigitsLackChar(f, '.');
    USDropDots(a, b, f);
    ReadBothSeparators(a + [','] + b + ['.'] + f, a, b + f);
  }

  lemma USSeparators(a: string, b: string, f: string)
    ensures '.' in a + [','] + b + ['.'] + f && ',' in a + [','] + b + ['.'] + f
  {
    var s := a + [','] + b + ['.'] + f;
    assert s[|a| + 1 + |b|] == '.';
    assert s[|a|] == ',';
  }

  lemma USDropDots(a: string, b: string, f: string)
    requires '.' !in a && '.' !in b && '.' !in f
    ensures RemoveAll(a + [','] + b + ['.'] + f, '.') == a + [','] + (b + f)
  {
    assert '.' !in a + [','] + b;
    DropDotBetween(a + [','] + b, f);
    RegroupTail(a, [','], b, f);
  }

  lemma RegroupTail(a: string, sep: string, b: string, f: string)
    ensures a + sep + b + f == a + sep + (b + f)
  {
  }

  /** Removing the only '.' joins the two sides. */
  lemma DropDotBetween(h: string, f: string)
    requires '.' !in h && '.' !in f
    ensures RemoveAll(h + ['.'] + f, '.') == h + f
  {
    RemoveAroundDropped(h, f, '.');
  }

  lemma ShiftedValue(cents: nat, a: string, b: string, f: string)
    requires AllDigits(a) && AllDigits(b) && AllDigits(f) && |b| == 3 && |f| == 2
    requires DigitsValue(a) == cents / 100 / 1000
    requires DigitsValue(b) == cents / 100 % 1000 && DigitsValue(f) == cents % 100
    ensures AllDigits(b + f) && DecimalValue(a, b + f) == DecimalShift(cents as real, 5)
  {
    var y := DigitsValue(b + f);
    assert AllDigits(b + f) && y == DigitsValue(b) * 100 + DigitsValue(f) by {
      DigitsValueAppend(b, f);
      assert Pow10(|f|) == 100 by { assert |f| == 2; }
    }
    assert DigitsValue(a) * 100000 + y == cents by {
      CentsDecompose(cents);
    }
    assert DecimalValue(a, b + f) == DigitsValue(a) as real + y as real / 100000.0 by {
      assert |b + f| == 5;
      ShiftFive(y as real);
    }
    ShiftFive(cents as real);
  }

  lemma CentsDecompose(cents: nat)
    ensures cents == (cents / 100 / 1000) * 100000 + (cents / 100 % 1000) * 100 + cents % 100
  {
  }

  /** From 1,000,000.00 up, a US amount has two commas, the rewrite leaves two
      points, and `float()` raises: the match is skipped. */
  lemma USMillionsSkipped(cents: nat)
    requires cents / 100 >= 1000000
    ensures ParseMoneyLiteral(FormatUS(cents)) == None
  {
    var n := cents / 100;
    var g, b, f := Grouped(n / 1000, ','), Fixed(n % 1000, 3), Fixed(cents % 100, 2);
    assert Grouped(n, ',') == g + [','] + b;
    assert '.' !in g;
    ReadTwoCommas(g, b, f);
    assert FormatUS(cents) == g + [','] + b + ['.'] + f;
  }

  lemma ReadTwoCommas(g: string, b: string, f: string)
    requires ',' in g && '.' !in g && AllDigits(b) && AllDigits(f)
    ensures ParseMoneyLiteral(g + [','] + b + ['.'] + f) == None
  {
    USSeparators(g, b, f);
    BothSeparatorsRewritten(g + [','] + b + ['.'] + f);
    DigitsLackChar(b, '.');
    DigitsLackChar(f, '.');
    TwoCommasDropDots(g, b, f);
    TwoCommasFail(g, b + f);
  }

  /** A comma inside `g` and one after it become two points. */
  lemma TwoCommasFail(g: string, e: string)
    requires ',' in g
    ensures ParseFloat(ReplaceAll(g + [','] + e, ',', '.')) == None
  {
    var t := g + [','] + e;
    var k :| 0 <= k < |g| && g[k] == ',';
    assert t[k] == ',' && t[|g|] == ',';
    TwoPointsFail(ReplaceAll(t, ',', '.'), k, |g|);
  }

  lemma TwoCommasDropDots(g: string, b: string, f: string)
    requires '.' !in g && '.' !in b && '.' !in f
    ensures RemoveAll(g + [','] + b + ['.'] + f, '.') == g + [','] + (b + f)
  {
    assert '.' !in g + [','] + b;
    DropDotBetween(g + [','] + b, f);
    RegroupTail(g, [','], b, f);
  }


  /** A dot-only literal goes to `float()` unchanged, so "1.000" reads as 1.0:
      a grouped amount between 1.000 and 999.999 reads as a thousandth of
      itself. */
  lemma DotOnlyReadsAsDecimal(n: nat)
    requires 1000 <= n < 1000000
    ensures ParseMoneyLiteral(Grouped(n, '.')) == Some(DecimalShift(n as real, 3))
  {
    var a, b := NatToDigits(n / 1000), Fixed(n % 1000, 3);
    assert Grouped(n, '.') == a + ['.'] + b;
    ReadDotParts(n, a, b);
  }

  lemma ReadDotParts(n: nat, a: string, b: string)
    requires AllDigits(a) && AllDigits(b) && |b| == 3 && 0 < |a|
    requires DigitsValue(a) == n / 1000 && DigitsValue(b) == n % 1000
    ensures ParseMoneyLiteral(a + ['.'] + b) == Some(DecimalShift(n as real, 3))
  {
    var s := a + ['.'] + b;
    DigitsLackChar(a, ',');
    DigitsLackChar(b, ',');
    assert ',' !in s;
    ParseFloatPoint(a, b);
    ThousandthsValue(n, a, b);
  }

  lemma ThousandthsValue(n: nat, a: string, b: string)
    requires AllDigits(a) && AllDigits(b) && |b| == 3
    requires DigitsValue(a) == n / 1000 && DigitsValue(b) == n % 1000
    ensures DecimalValue(a, b) == DecimalShift(n as real, 3)
  {
    ShiftThree(DigitsValue(b) as real);
    ShiftThree(n as real);
  }

  // ---------------------------------------------------------------------------
  // Subtype tags
  // ---------------------------------------------------------------------------

  datatype ValueKind = SalaryValue | RentValue | FineValue | DepositValue | FeeValue | GenericValue

  /** `_identificar_tipo_valor` on already lower-cased text. */
  function TagValue(lowered: string): ValueKind {
    if Contains(lowered, "salário") || Contains(lowered, "salario") then SalaryValue
    else if Contains(lowered, "aluguel") then RentValue
    else if Contains(lowered, "multa") then FineValue
    else if Contains(lowered, "caução") || Contains(lowered, "cauçao") || Contains(lowered, "garantia") then DepositValue
    else if Contains(lowered, "honorário") || Contains(lowered, "honorario") then FeeValue
    else GenericValue
  }

  /** The keyword rows of the value tagger, in the order they are tried. */
  const ValueKeywords: seq<(ValueKind, seq<string>)> := [
    (SalaryValue, ["salário", "salario"]),
    (RentValue, ["aluguel"]),
    (FineValue, ["multa"]),
    (DepositValue, ["caução", "cauçao", "garantia"]),
    (FeeValue, ["honorário", "honorario"])
  ]

  /** The tagger is first-match-wins over its keyword rows. */
  lemma TagValueIsFirstMatch(lowered: string)
    ensures TagValue(lowered) == FirstTag(ValueKeywords, lowered, GenericValue)
  {
    var t := ValueKeywords;
    AnyInTwo(lowered, "salário", "salario");
    AnyInOne(lowered, "aluguel");
    AnyInOne(lowered, "multa");
    AnyInThree(lowered, "caução", "cauçao", "garantia");
    AnyInTwo(lowered, "honorário", "honorario");
    FirstTagStep(t, lowered, GenericValue);
    FirstTagStep(t[1..], lowered, GenericValue);
    FirstTagStep(t[2..], lowered, GenericValue);
    FirstTagStep(t[3..], lowered, GenericValue);
    FirstTagStep(t[4..], lowered, GenericValue);
    FirstTagStep(t[5..], lowered, GenericValue);
    assert t[1..][1..] == t[2..] && t[2..][1..] == t[3..] && t[3..][1..] == t[4..] && t[4..][1..] == t[5..];
  }

  // ---------------------------------------------------------------------------
  // Extraction
  // ---------------------------------------------------------------------------

  /** One extracted amount: its value, the whole matched text, the offset of
      the match and the subtype tag of the matched text. */
  datatype MoneyEntity = MoneyEntity(value: real, text: string, position: nat, kind: ValueKind)

  /** The currency patterns of the extractor, named by what each one
      recognises. */
  datatype MoneyPattern = BrlSpaced | BrlTight | Reais | ValueOf | Dollar | Euro | Salary | Rent | Fine

  /** Each pattern's expression; all are case-insensitive. */
  function MoneyRegex(p: MoneyPattern): Regex {
    match p
    case BrlSpaced => Regex("R\\$\\s*(\\d{1,3}(?:\\.\\d{3})*(?:,\\d{2})?)", true)
    case BrlTight => Regex("R\\$(\\d{1,3}(?:\\.\\d{3})*(?:,\\d{2})?)", true)
    case Reais => Regex("(\\d{1,3}(?:\\.\\d{3})*(?:,\\d{2})?)\\s*reais", true)
    case ValueOf => Regex("valor\\s*(?:de\\s*)?(\\d{1,3}(?:\\.\\d{3})*(?:,\\d{2})?)", true)
    case Dollar => Regex("US\\$\\s*(\\d{1,3}(?:,\\d{3})*(?:\\.\\d{2})?)", true)
    case Euro => Regex("€\\s*(\\d{1,3}(?:\\.\\d{3})*(?:,\\d{2})?)", true)
    case Salary => Regex("sal[áa]rio\\s*[:\\-]?\\s*R?\\$?\\s*(\\d{1,3}(?:\\.\\d{3})*(?:,\\d{2})?)", true)
    case Rent => Regex("aluguel\\s*[:\\-]?\\s*R?\\$?\\s*(\\d{1,3}(?:\\.\\d{3})*(?:,\\d{2})?)", true)
    case Fine => Regex("multa\\s*[:\\-]?\\s*R?\\$?\\s*(\\d{1,3}(?:\\.\\d{3})*(?:,\\d{2})?)", true)
  }

  /** The patterns, in the order they are tried. */
  const MoneyPatterns: seq<MoneyPattern> := [BrlSpaced, BrlTight, Reais, ValueOf, Dollar, Euro, Salary, Rent, Fine]

  /** The entity of one match, or `None` when its first group does not parse
      (the `except: continue`). */
  function MoneyFromMatch(o: Oracles, t: string, m: Match): (r: Option<MoneyEntity>)
    ensures r.Some? <==> |m.groups| > 0 && ParseMoneyLiteral(m.groups[0]).Some?
    ensures r.Some? ==> r.value.value == ParseMoneyLiteral(m.groups[0]).value && r.value.value >= 0.0
    ensures r.Some? ==> r.value.text == Whole(m, t) && r.value.position == m.start
    ensures r.Some? ==> r.value.kind == TagValue(o.lower(Whole(m, t)))
  {
    if |m.groups| == 0 then None
    else
      match ParseMoneyLiteral(m.groups[0])
      case None => None
      case Some(v) =>
        var whole := Whole(m, t);
        Some(MoneyEntity(v, whole, m.start, TagValue(o.lower(whole))))
  }

  /** The parsed matches of one pattern, in match order. */
  function MoneyFromPattern(o: Oracles, t: string, p: MoneyPattern): (r: seq<MoneyEntity>)
    ensures forall e :: e in r <==>
      exists m :: m in o.findAll(MoneyRegex(p), t) && MoneyFromMatch(o, t, m) == Some(e)
    ensures forall e | e in r :: e.value >= 0.0
  {
    FilterMap(o.findAll(MoneyRegex(p), t), (m: Match) => MoneyFromMatch(o, t, m))
  }

  /** `_extrair_valores_monetarios_completos`: for each pattern in order,
      each match in order, the matches whose literal parses. */
  function ExtractMoney(o: Oracles, t: string): (r: seq<MoneyEntity>)
    ensures forall e :: e in r <==> exists p :: p in MoneyPatterns && e in MoneyFromPattern(o, t, p)
    ensures forall e | e in r :: e.value >= 0.0
  {
    FlatMap(MoneyPatterns, (p: MoneyPattern) => MoneyFromPattern(o, t, p))
  }
}
