/** Dates (`_extrair_datas_completas` and `_identificar_tipo_data`,
    app.py:252-325): every match of the date patterns is rewritten to the
    canonical "DD/MM/YYYY" and tagged with the role the matched text names. */
module Dates {
  import opened Wrappers
  import opened Text
  import opened Oracles
  import opened Seqs
  import opened Tagging

  // ---------------------------------------------------------------------------
  // Canonical form
  // ---------------------------------------------------------------------------

  /** `f"{n:02d}"`: at least two digits, zero-padded. */
  function Pad2(n: nat): (r: string)
    ensures AllDigits(r) && DigitsValue(r) == n
    ensures n < 100 ==> |r| == 2
    ensures |r| >= 2
  {
    var d := NatToDigits(n);
    if n < 10 then
      var r := ['0'] + d;
      DigitsValueAppend(['0'], d);
      assert ['0'][..0] == [];
      r
    else d
  }

  /** `f"{dia:02d}/{mes:02d}/{ano}"`. */
  function FormatDate(day: nat, month: nat, year: nat): string {
    Pad2(day) + "/" + Pad2(month) + "/" + NatToDigits(year)
  }

  /** Reads a canonical date back: two digits, '/', two digits, '/', and a
      non-empty run of digits. */
  function ParseCanonicalDate(s: string): (r: Option<(nat, nat, nat)>)
    ensures r.Some? ==> |s| >= 7 && s[2] == '/' && s[5] == '/'
  {
    if |s| >= 7 && s[2] == '/' && s[5] == '/' then
      match (ParseNat(s[..2]), ParseNat(s[3..5]), ParseNat(s[6..]))
      case (Some(d), Some(m), Some(y)) => Some((d, m, y))
      case _ => None
    else None
  }

  /** The canonical form of a day and month below 100 reads back as the
      same day, month and year. */
  lemma FormatDateRoundTrip(day: nat, month: nat, year: nat)
    requires day < 100 && month < 100
    ensures ParseCanonicalDate(FormatDate(day, month, year)) == Some((day, month, year))
  {
    var a, b, c := Pad2(day), Pad2(month), NatToDigits(year);
    var s := a + "/" + b + "/" + c;
    assert s[..2] == a && s[3..5] == b && s[6..] == c;
    ParseNatDigits(a);
    ParseNatDigits(b);
    ParseNatDigits(c);
  }

  lemma ParseNatDigits(s: string)
    requires 0 < |s| && AllDigits(s)
    ensures ParseNat(s) == Some(DigitsValue(s))
  {
  }

  /** A two-digit year is read as 2000+y below 50 and 1900+y from 50; a
      longer year is kept. */
  function ExpandYear(y: nat): (r: nat)
    ensures y < 100 ==> 1950 <= r < 2050 && r % 100 == y
    ensures y >= 100 ==> r == y
  {
    if y < 100 then (if y < 50 then y + 2000 else y + 1900) else y
  }

  /** Expansion is the inverse of keeping the last two digits, on the window
      1950-2049. */
  lemma ExpandYearInverse(year: nat)
    requires 1950 <= year < 2050
    ensures ExpandYear(year % 100) == year
  {
  }

  // ---------------------------------------------------------------------------
  // Month names
  // ---------------------------------------------------------------------------

  /** The keys of the `meses` dict, in its insertion order. */
  const MonthKeys: seq<string> := [
    "janeiro", "fevereiro", "março", "marco", "abril", "maio", "junho", "julho",
    "agosto", "setembro", "outubro", "novembro", "dezembro"
  ]

  /** The value of each key of `MonthKeys`. */
  const MonthValues: seq<nat> := [1, 2, 3, 3, 4, 5, 6, 7, 8, 9, 10, 11, 12]

  /** The offset of the first key equal to `name`, or the number of keys. */
  function FirstIndexOf(keys: seq<string>, name: string): (i: nat)
    ensures i <= |keys|
    ensures i < |keys| ==> keys[i] == name
    ensures forall j | 0 <= j < i :: keys[j] != name
  {
    if |keys| == 0 || keys[0] == name then 0 else 1 + FirstIndexOf(keys[1..], name)
  }

  /** `meses.get(name, 1)`. */
  function MonthNumber(name: string): (r: nat)
    ensures 1 <= r <= 12
    ensures name !in MonthKeys ==> r == 1
  {
    var i := FirstIndexOf(MonthKeys, name);
    if i < |MonthKeys| then MonthValueInRange(i); MonthValues[i] else 1
  }

  lemma MonthValueInRange(i: nat)
    requires i < |MonthValues|
    ensures 1 <= MonthValues[i] <= 12
  {
  }

  /** Every key is read as its own value: the one key written twice, March,
      has the same value both times. */
  lemma MonthKeysRead(i: nat)
    requires i < |MonthKeys|
    ensures MonthNumber(MonthKeys[i]) == MonthValues[i]
  {
    var k := FirstIndexOf(MonthKeys, MonthKeys[i]);
    SameKeySameValue(k, i);
  }

  lemma SameKeySameValue(i: nat, j: nat)
    requires i < |MonthKeys| && j < |MonthKeys| && MonthKeys[i] == MonthKeys[j]
    ensures MonthValues[i] == MonthValues[j]
  {
    if i != j && !((i == 2 && j == 3) || (i == 3 && j == 2)) {
      KeysDiffer(i, j);
    }
  }

  lemma KeysDiffer(i: nat, j: nat)
    requires i < |MonthKeys| && j < |MonthKeys| && i != j
    requires !((i == 2 && j == 3) || (i == 3 && j == 2))
    ensures MonthKeys[i] != MonthKeys[j]
  {
    var a, b := MonthKeys[i], MonthKeys[j];
    if |a| == |b| {
      assert a[0] != b[0] || a[2] != b[2];
    }
  }

  /** The full Portuguese name of each month. */
  function MonthName(m: nat): string
    requires 1 <= m <= 12
  {
    if m <= 3 then MonthKeys[m - 1] else MonthKeys[m]
  }

  /** Every month name is read back as its number. */
  lemma MonthNameRoundTrip(m: nat)
    requires 1 <= m <= 12
    ensures MonthNumber(MonthName(m)) == m
  {
    var i := if m <= 3 then m - 1 else m;
    assert MonthValues[i] == m;
    assert MonthName(m) == MonthKeys[i];
    MonthKeysRead(i);
  }

  /** A name outside the table, such as an English one, is read as
      January. */
  lemma UnknownMonthIsJanuary(name: string)
    requires name !in MonthKeys
    ensures MonthNumber(name) == 1
  {
  }

  // ---------------------------------------------------------------------------
  // Subtype tags
  // ---------------------------------------------------------------------------

  datatype DateKind = ValidityDate | SignatureDate | StartDate | EndDate | GenericDate

  /** `_identificar_tipo_data` on already lower-cased text. */
  function TagDate(lowered: string): DateKind {
    if Contains(lowered, "vigência") || Contains(lowered, "vigencia") then ValidityDate
    else if Contains(lowered, "assinatura") then SignatureDate
    else if Contains(lowered, "início") || Contains(lowered, "inicio") then StartDate
    else if Contains(lowered, "término") || Contains(lowered, "termino") || Contains(lowered, "fim") then EndDate
    else GenericDate
  }

  /** The keyword rows of the date tagger, in the order they are tried. */
  const DateKeywords: seq<(DateKind, seq<string>)> := [
    (ValidityDate, ["vigência", "vigencia"]),
    (SignatureDate, ["assinatura"]),
    (StartDate, ["início", "inicio"]),
    (EndDate, ["término", "termino", "fim"])
  ]

  /** The tagger is first-match-wins over its keyword rows. */
  lemma TagDateIsFirstMatch(lowered: string)
    ensures TagDate(lowered) == FirstTag(DateKeywords, lowered, GenericDate)
  {
    var t := DateKeywords;
    AnyInTwo(lowered, "vigência", "vigencia");
    AnyInOne(lowered, "assinatura");
    AnyInTwo(lowered, "início", "inicio");
    AnyInThree(lowered, "término", "termino", "fim");
    FirstTagStep(t, lowered, GenericDate);
    FirstTagStep(t[1..], lowered, GenericDate);
    FirstTagStep(t[2..], lowered, GenericDate);
    FirstTagStep(t[3..], lowered, GenericDate);
    FirstTagStep(t[4..], lowered, GenericDate);
    assert t[1..][1..] == t[2..] && t[2..][1..] == t[3..] && t[3..][1..] == t[4..];
  }

  // ---------------------------------------------------------------------------
  // Extraction
  // ---------------------------------------------------------------------------

  /** One extracted date: the canonical form, the matched text, its offset
      and the role tag of the matched text. */
  datatype DateEntity = DateEntity(date: string, text: string, position: nat, kind: DateKind)

  /** The date patterns, tried in this order, all case-insensitive. */
  const DatePatterns: seq<string> := [
    "(\\d{2})[\\/\\-\\.](\\d{2})[\\/\\-\\.](\\d{4})",
    "(\\d{1,2})\\s+de\\s+(\\w+)\\s+de\\s+(\\d{4})",
    "(\\d{2})-(\\d{2})-(\\d{4})",
    "(\\d{4})[\\/\\-\\.](\\d{2})[\\/\\-\\.](\\d{2})",
    "(\\d{2})[\\/\\-\\.](\\d{2})[\\/\\-\\.](\\d{2})",
    "data\\s*[:\\-]?\\s*(\\d{2})[\\/\\-\\.](\\d{2})[\\/\\-\\.](\\d{4})",
    "vig[êe]ncia\\s*[:\\-]?\\s*(\\d{2})[\\/\\-\\.](\\d{2})[\\/\\-\\.](\\d{4})"
  ]

  /** The day, month and year a match denotes, or `None` when a group is
      missing or not a number (the `except: continue`). A match whose text
      holds "de" is read as "day de month-name de year", with the month name
      looked up and the year kept as written; otherwise a four-character
      first group means year first, and day first is assumed otherwise, with
      two-digit years expanded. */
  function DateFields(o: Oracles, lowered: string, groups: seq<string>): (r: Option<(nat, nat, nat)>)
    ensures r.Some? ==> |groups| >= 3
    ensures r.Some? && Contains(lowered, "de") ==>
              ParseNat(groups[0]) == Some(r.value.0) && ParseNat(groups[2]) == Some(r.value.2) &&
              r.value.1 == MonthNumber(o.lower(groups[1]))
    ensures r.Some? && !Contains(lowered, "de") && |groups[0]| == 4 ==>
              ParseNat(groups[0]) == Some(r.value.2) && ParseNat(groups[1]) == Some(r.value.1) &&
              ParseNat(groups[2]) == Some(r.value.0)
    ensures r.Some? && !Contains(lowered, "de") && |groups[0]| != 4 ==>
              ParseNat(groups[0]) == Some(r.value.0) && ParseNat(groups[1]) == Some(r.value.1) &&
              exists y :: ParseNat(groups[2]) == Some(y) && r.value.2 == ExpandYear(y)
    ensures r.Some? && !Contains(lowered, "de") ==> |groups| == 3
    ensures (Contains(lowered, "de") && |groups| >= 3 &&
             ParseNat(groups[0]).Some? && ParseNat(groups[2]).Some?) ==> r.Some?
    ensures (!Contains(lowered, "de") && |groups| == 3 && ParseNat(groups[0]).Some? &&
             ParseNat(groups[1]).Some? && ParseNat(groups[2]).Some?) ==> r.Some?
  {
    if Contains(lowered, "de") then
      if |groups| < 3 then None
      else
        match (ParseNat(groups[0]), ParseNat(groups[2]))
        case (Some(d), Some(y)) => Some((d, MonthNumber(o.lower(groups[1])), y))
        case _ => None
    else if |groups| != 3 then None
    else
      match (ParseNat(groups[0]), ParseNat(groups[1]), ParseNat(groups[2]))
      case (Some(a), Some(b), Some(c)) =>
        if |groups[0]| == 4 then Some((c, b, a)) else Some((a, b, ExpandYear(c)))
      case _ => None
  }

  /** The entity of one match. */
  function DateFromMatch(o: Oracles, t: string, m: Match): (r: Option<DateEntity>)
    ensures r.Some? <==> DateFields(o, o.lower(Whole(m, t)), m.groups).Some?
    ensures r.Some? ==>
              var f := DateFields(o, o.lower(Whole(m, t)), m.groups).value;
              r.value.date == FormatDate(f.0, f.1, f.2) &&
              r.value.text == Whole(m, t) && r.value.position == m.start &&
              r.value.kind == TagDate(o.lower(Whole(m, t)))
  {
    var whole := Whole(m, t);
    match DateFields(o, o.lower(whole), m.groups)
    case None => None
    case Some(f) => Some(DateEntity(FormatDate(f.0, f.1, f.2), whole, m.start, TagDate(o.lower(whole))))
  }

  /** The parsed matches of one pattern, in match order. */
  function DatesFromPattern(o: Oracles, t: string, p: string): (r: seq<DateEntity>)
    ensures forall e :: e in r <==>
      exists m :: m in o.findAll(Regex(p, true), t) && DateFromMatch(o, t, m) == Some(e)
  {
    FilterMap(o.findAll(Regex(p, true), t), (m: Match) => DateFromMatch(o, t, m))
  }

  /** `_extrair_datas_completas`: for each pattern in order, each match in
      order, the matches whose groups parse. */
  function ExtractDates(o: Oracles, t: string): (r: seq<DateEntity>)
    ensures forall e :: e in r <==> exists p :: p in DatePatterns && e in DatesFromPattern(o, t, p)
  {
    FlatMap(DatePatterns, (p: string) => DatesFromPattern(o, t, p))
  }

  /** When the day and the month read are below 100, the canonical form of
      an extracted date reads back as the fields it was built from. */
  lemma DateFromMatchRoundTrip(o: Oracles, t: string, m: Match)
    requires DateFromMatch(o, t, m).Some?
    requires DateFields(o, o.lower(Whole(m, t)), m.groups).value.0 < 100
    requires DateFields(o, o.lower(Whole(m, t)), m.groups).value.1 < 100
    ensures ParseCanonicalDate(DateFromMatch(o, t, m).value.date) == DateFields(o, o.lower(Whole(m, t)), m.groups)
  {
    var f := DateFields(o, o.lower(Whole(m, t)), m.groups).value;
    FormatDateRoundTrip(f.0, f.1, f.2);
  }

  /** A day-first numeric date with a four-digit year is extracted in its own
      canonical form, which reads back as day 5, month 3, year 2024. */
  lemma NumericDateExample(o: Oracles)
    requires LowerKeepsPlain(o)
    ensures DateFromMatch(o, "05/03/2024", Match(0, 10, ["05", "03", "2024"])) ==
              Some(DateEntity("05/03/2024", "05/03/2024", 0, GenericDate))
    ensures ParseCanonicalDate("05/03/2024") == Some((5, 3, 2024))
  {
    var w := "05/03/2024";
    assert Whole(Match(0, 10, ["05", "03", "2024"]), w) == w;
    assert PlainLower(w);
    NumericDateIsGeneric(w);
    NumericExampleFields(o, w);
    Format2024();
    FormatDateRoundTrip(5, 3, 2024);
  }

  lemma NumericExampleFields(o: Oracles, w: string)
    requires w == "05/03/2024"
    ensures DateFields(o, w, ["05", "03", "2024"]) == Some((5, 3, 2024))
  {
    LacksWord(w, "de");
    TwoDigits('0', '5');
    TwoDigits('0', '3');
    Year2024();
  }

  /** A date with a spelled-out month is extracted in the same canonical form
      as the numeric one. */
  lemma MonthNameDateExample(o: Oracles)
    requires LowerKeepsPlain(o)
    ensures DateFromMatch(o, "05 de marco de 2024", Match(0, 19, ["05", "marco", "2024"])) ==
              Some(DateEntity("05/03/2024", "05 de marco de 2024", 0, GenericDate))
    ensures ParseCanonicalDate("05/03/2024") == Some((5, 3, 2024))
  {
    var w := "05 de marco de 2024";
    MonthNameText(w);
    MonthNameDateIsGeneric(w);
    DeAt(w);
    ExampleNumbers();
    MarcoIsMarch(o);
    MonthNameExampleFields(o, w);
    Format2024();
    FormatDateRoundTrip(5, 3, 2024);
  }

  lemma MonthNameText(w: string)
    requires w == "05 de marco de 2024"
    ensures Whole(Match(0, 19, ["05", "marco", "2024"]), w) == w
    ensures PlainLower(w) && |w| >= 5 && w[3] == 'd' && w[4] == 'e'
    ensures forall i | 0 <= i < |w| :: IsDigit(w[i]) || w[i] in "demarco "
  {
  }

  lemma DeAt(w: string)
    requires |w| >= 5 && w[3] == 'd' && w[4] == 'e'
    ensures Contains(w, "de")
  {
    assert w[3..5] == "de";
    assert OccursAt(w, "de", 3);
    ContainsIffOccurs(w, "de");
  }

  lemma MonthNameExampleFields(o: Oracles, w: string)
    requires Contains(w, "de") && MonthNumber(o.lower("marco")) == 3
    requires ParseNat("05") == Some(5) && ParseNat("2024") == Some(2024)
    ensures DateFields(o, w, ["05", "marco", "2024"]) == Some((5, 3, 2024))
  {
    SpelledFields(o, w, "05", "marco", "2024", 5, 3, 2024);
  }

  lemma ExampleNumbers()
    ensures ParseNat("05") == Some(5) && ParseNat("2024") == Some(2024)
  {
    TwoDigits('0', '5');
    Year2024();
  }

  lemma SpelledFields(o: Oracles, lowered: string, g0: string, g1: string, g2: string, d: nat, m: nat, y: nat)
    requires Contains(lowered, "de")
    requires ParseNat(g0) == Some(d) && MonthNumber(o.lower(g1)) == m && ParseNat(g2) == Some(y)
    ensures DateFields(o, lowered, [g0, g1, g2]) == Some((d, m, y))
  {
  }

  lemma MarcoIsMarch(o: Oracles)
    requires LowerKeepsPlain(o)
    ensures MonthNumber(o.lower("marco")) == 3
  {
    LowerMarco(o);
    MarcoKey();
  }

  lemma LowerMarco(o: Oracles)
    requires LowerKeepsPlain(o)
    ensures o.lower("marco") == "marco"
  {
    assert PlainLower("marco");
  }

  lemma MarcoKey()
    ensures MonthNumber("marco") == 3
  {
    assert MonthKeys[3] == "marco";
    MonthKeysRead(3);
  }

  /** A date written with digits and the letters of "de marco" names no
      role. */
  lemma MonthNameDateIsGeneric(w: string)
    requires forall i | 0 <= i < |w| :: IsDigit(w[i]) || w[i] in "demarco "
    ensures TagDate(w) == GenericDate
  {
    LacksLetter(w, "vigência", 0);
    LacksLetter(w, "vigencia", 0);
    LacksLetter(w, "assinatura", 1);
    LacksLetter(w, "início", 0);
    LacksLetter(w, "inicio", 0);
    LacksLetter(w, "término", 0);
    LacksLetter(w, "termino", 0);
    LacksLetter(w, "fim", 0);
  }

  /** Text written with digits and the letters of "de marco" holds no word
      with another letter. */
  lemma LacksLetter(w: string, word: string, k: nat)
    requires forall i | 0 <= i < |w| :: IsDigit(w[i]) || w[i] in "demarco "
    requires k < |word| && word[k] !in "demarco " && !IsDigit(word[k])
    ensures !Contains(w, word)
  {
    MissingCharNotContained(w, word, k);
  }

  lemma Year2024()
    ensures ParseNat("2024") == Some(2024)
  {
    TwoDigits('2', '0');
    DigitsValueSnoc("20", '2');
    assert "20" + ['2'] == "202";
    DigitsValueSnoc("202", '4');
    assert "202" + ['4'] == "2024";
  }

  lemma Format2024()
    ensures FormatDate(5, 3, 2024) == "05/03/2024"
  {
    assert NatToDigits(2024) == "2024" by {
      assert NatToDigits(2) == "2";
      assert NatToDigits(20) == "20";
      assert NatToDigits(202) == "202";
    }
    assert Pad2(5) == "05";
    assert Pad2(3) == "03";
  }

  /** The DD/MM/YY pattern also matches the first eight characters of a
      four-digit-year date, whose first two year digits it reads as a short
      year: "15/08/2023" yields a second date, 15/08/2020. */
  lemma ShortYearReadsPrefix(o: Oracles)
    requires LowerKeepsPlain(o)
    ensures DateFromMatch(o, "15/08/2023", Match(0, 8, ["15", "08", "20"])) ==
              Some(DateEntity("15/08/2020", "15/08/20", 0, GenericDate))
  {
    var w := "15/08/20";
    ShortYearText(o, w);
    ShortYearFields(o, w);
    ShortYearFormat();
  }

  lemma ShortYearText(o: Oracles, w: string)
    requires LowerKeepsPlain(o) && w == "15/08/20"
    ensures Whole(Match(0, 8, ["15", "08", "20"]), "15/08/2023") == w
    ensures o.lower(w) == w && TagDate(w) == GenericDate
  {
    assert PlainLower(w);
    NumericDateIsGeneric(w);
  }

  lemma ShortYearFields(o: Oracles, w: string)
    requires w == "15/08/20"
    ensures DateFields(o, w, ["15", "08", "20"]) == Some((15, 8, 2020))
  {
    LacksWord(w, "de");
    TwoDigits('1', '5');
    TwoDigits('0', '8');
    TwoDigits('2', '0');
  }

  lemma TwoDigits(a: char, b: char)
    requires IsDigit(a) && IsDigit(b)
    ensures ParseNat([a, b]) == Some(DigitValue(a) * 10 + DigitValue(b))
  {
    assert [a, b][..1] == [a] && [a][..0] == [];
    assert DigitsValue([a]) == DigitValue(a);
    assert DigitsValue([a, b]) == DigitValue(a) * 10 + DigitValue(b);
    ParseNatDigits([a, b]);
  }

  lemma ShortYearFormat()
    ensures FormatDate(15, 8, 2020) == "15/08/2020"
  {
    assert NatToDigits(2020) == "2020" by {
      assert NatToDigits(2) == "2";
      assert NatToDigits(20) == "20";
      assert NatToDigits(202) == "202";
    }
    assert Pad2(15) == "15";
    assert Pad2(8) == "08";
  }

  /** Text with no letter holds no word. */
  lemma LacksWord(w: string, word: string)
    requires forall i | 0 <= i < |w| :: IsDigit(w[i]) || w[i] == '/'
    requires 0 < |word| && 'a' <= word[0] <= 'z'
    ensures !Contains(w, word)
  {
    MissingCharNotContained(w, word, 0);
  }

  /** A date written only with digits and slashes names no role. */
  lemma NumericDateIsGeneric(w: string)
    requires forall i | 0 <= i < |w| :: IsDigit(w[i]) || w[i] == '/'
    ensures TagDate(w) == GenericDate
  {
    LacksWord(w, "vigência");
    LacksWord(w, "vigencia");
    LacksWord(w, "assinatura");
    LacksWord(w, "início");
    LacksWord(w, "inicio");
    LacksWord(w, "término");
    LacksWord(w, "termino");
    LacksWord(w, "fim");
  }
}
