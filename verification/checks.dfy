/** The numeric checks run for one document type only (app.py:905-941 and
    965-1037): a salary below the minimum wage, a fine or a deposit of more
    than three months, a working day over 8 hours or a week over 44 hours,
    an invoice CNPJ whose check digits fail, and invoice values more than a
    thousandfold apart. */
module Checks {
  import opened Wrappers
  import opened Text
  import opened Oracles
  import opened Seqs
  import opened Catalog
  import opened Findings
  import opened Money
  import opened Cnpj

  /** The monthly minimum wage, R$ 1.412,00. */
  const MinimumWage: real := 1412.0

  /** The legal cap, in months, on a lease fine and on a lease deposit. */
  const MonthCap: nat := 3

  const DailyHoursCap: nat := 8
  const WeeklyHoursCap: nat := 44

  // ---------------------------------------------------------------------------
  // Salary
  // ---------------------------------------------------------------------------

  function SalaryFinding(e: MoneyEntity): Option<Finding> {
    if e.kind == SalaryValue && e.value < MinimumWage
    then Some(Finding(Critical, SalaryBelowFloor(e.value, e.text)))
    else None
  }

  /** `_detectar_salario_abaixo_minimo_avancado`: one critical finding per
      salary amount below the minimum wage, and nothing else. */
  function SalaryCheck(values: seq<MoneyEntity>): (r: seq<Finding>)
    ensures |r| <= |values|
    ensures forall f | f in r :: f.severity == Critical && f.detail.SalaryBelowFloor?
    ensures forall f :: f in r <==>
      exists e :: e in values && e.kind == SalaryValue && e.value < MinimumWage &&
                  f == Finding(Critical, SalaryBelowFloor(e.value, e.text))
  {
    FilterMap(values, SalaryFinding)
  }

  /** The salary check keeps the order of the amounts: the findings of a
      concatenation are those of each part, in turn. */
  lemma SalaryCheckAppend(a: seq<MoneyEntity>, b: seq<MoneyEntity>)
    ensures SalaryCheck(a + b) == SalaryCheck(a) + SalaryCheck(b)
  {
    FilterMapAppend(a, b, SalaryFinding);
  }

  /** A single amount gives one finding when it is a salary below the
      minimum wage, and none otherwise. */
  lemma SalaryCheckSingle(e: MoneyEntity)
    ensures SalaryCheck([e]) ==
      if e.kind == SalaryValue && e.value < MinimumWage then [Finding(Critical, SalaryBelowFloor(e.value, e.text))] else []
  {
    assert [e][1..] == [];
  }

  // ---------------------------------------------------------------------------
  // Fines and deposits
  // ---------------------------------------------------------------------------

  /** `(\d+).*meses?`, searched case-insensitively. */
  const MonthsPattern: Regex := Regex("(\\d+).*meses?", true)

  /** `(\d+).*horas?`, searched case-insensitively. */
  const HoursPattern: Regex := Regex("(\\d+).*horas?", true)

  /** The number before the unit in the first match of `p`, or `None` when
      there is no match (or its group is not a number). */
  function NumberBefore(o: Oracles, p: Regex, text: string): (r: Option<nat>)
    ensures r.Some? ==> exists m :: Search(o, p, text) == Some(m) && |m.groups| > 0 &&
                                    ParseNat(m.groups[0]) == r
    ensures forall m | Search(o, p, text) == Some(m) && |m.groups| > 0 :: r == ParseNat(m.groups[0])
    ensures Search(o, p, text).None? ==> r.None?
  {
    match Search(o, p, text)
    case None => None
    case Some(m) => if |m.groups| == 0 then None else ParseNat(m.groups[0])
  }

  function FineFinding(o: Oracles, e: MoneyEntity): Option<Finding> {
    if e.kind != FineValue then None
    else
      match NumberBefore(o, MonthsPattern, e.text)
      case Some(n) => if n > MonthCap then Some(Finding(Critical, AbusiveFine(n, e.text))) else None
      case None => None
  }

  /** `_detectar_multa_abusiva_avancado`: a fine amount whose text names more
      than three months is a critical finding. */
  function FineCheck(o: Oracles, values: seq<MoneyEntity>): (r: seq<Finding>)
    ensures |r| <= |values|
    ensures forall f | f in r :: f.severity == Critical && f.detail.AbusiveFine?
    ensures forall f :: f in r <==>
      exists e :: e in values && e.kind == FineValue &&
                  exists n :: NumberBefore(o, MonthsPattern, e.text) == Some(n) && n > MonthCap &&
                              f == Finding(Critical, AbusiveFine(n, e.text))
  {
    FilterMap(values, (e: MoneyEntity) => FineFinding(o, e))
  }

  function DepositFinding(o: Oracles, e: MoneyEntity): Option<Finding> {
    if e.kind != DepositValue then None
    else
      match NumberBefore(o, MonthsPattern, e.text)
      case Some(n) => if n > MonthCap then Some(Finding(High, ExcessiveDeposit(n, e.text))) else None
      case None => None
  }

  /** The deposit loop of the lease branch: a deposit amount whose text names
      more than three months is a high finding. */
  function DepositCheck(o: Oracles, values: seq<MoneyEntity>): (r: seq<Finding>)
    ensures |r| <= |values|
    ensures forall f | f in r :: f.severity == High && f.detail.ExcessiveDeposit?
    ensures forall f :: f in r <==>
      exists e :: e in values && e.kind == DepositValue &&
                  exists n :: NumberBefore(o, MonthsPattern, e.text) == Some(n) && n > MonthCap &&
                              f == Finding(High, ExcessiveDeposit(n, e.text))
  {
    FilterMap(values, (e: MoneyEntity) => DepositFinding(o, e))
  }

  // ---------------------------------------------------------------------------
  // Working hours
  // ---------------------------------------------------------------------------

  function HoursFinding(o: Oracles, e: MoneyEntity): (r: Option<Finding>)
    ensures r.Some? ==> r.value.severity == Critical && (r.value.detail.DailyHoursExceeded? || r.value.detail.WeeklyHoursExceeded?)
    ensures r.Some? ==> Contains(o.lower(e.text), "hora")
    ensures r.Some? && r.value.detail.DailyHoursExceeded? ==>
              r.value.detail.hours > DailyHoursCap && Contains(o.lower(e.text), "diária")
    ensures r.Some? && r.value.detail.WeeklyHoursExceeded? ==>
              r.value.detail.hours > WeeklyHoursCap && Contains(o.lower(e.text), "semanal")
    ensures r.Some? ==> NumberBefore(o, HoursPattern, e.text) == Some(r.value.detail.hours) &&
                        r.value.detail.text == e.text
    ensures var n := NumberBefore(o, HoursPattern, e.text);
            Contains(o.lower(e.text), "hora") && n.Some? && n.value > DailyHoursCap &&
            Contains(o.lower(e.text), "diária") ==>
              r == Some(Finding(Critical, DailyHoursExceeded(n.value, e.text)))
    ensures var n := NumberBefore(o, HoursPattern, e.text);
            Contains(o.lower(e.text), "hora") && n.Some? && n.value > WeeklyHoursCap &&
            Contains(o.lower(e.text), "semanal") &&
            !(n.value > DailyHoursCap && Contains(o.lower(e.text), "diária")) ==>
              r == Some(Finding(Critical, WeeklyHoursExceeded(n.value, e.text)))
  {
    var lowered := o.lower(e.text);
    if !Contains(lowered, "hora") then None
    else
      match NumberBefore(o, HoursPattern, e.text)
      case None => None
      case Some(h) =>
        if h > DailyHoursCap && Contains(lowered, "diária") then
          Some(Finding(Critical, DailyHoursExceeded(h, e.text)))
        else if h > WeeklyHoursCap && Contains(lowered, "semanal") then
          Some(Finding(Critical, WeeklyHoursExceeded(h, e.text)))
        else None
  }

  /** The hours loop of the employment branch. */
  function HoursCheck(o: Oracles, values: seq<MoneyEntity>): (r: seq<Finding>)
    ensures |r| <= |values|
    ensures forall f | f in r :: f.severity == Critical && (f.detail.DailyHoursExceeded? || f.detail.WeeklyHoursExceeded?)
    ensures forall f :: f in r <==> exists e :: e in values && HoursFinding(o, e) == Some(f)
  {
    FilterMap(values, (e: MoneyEntity) => HoursFinding(o, e))
  }

  /** An amount whose text names more than 44 hours a week, and does not
      trigger the daily branch first, is reported by the hours loop. */
  lemma WeeklyHoursFound(o: Oracles, values: seq<MoneyEntity>, e: MoneyEntity, h: nat)
    requires e in values
    requires Contains(o.lower(e.text), "hora") && NumberBefore(o, HoursPattern, e.text) == Some(h)
    requires h > WeeklyHoursCap && Contains(o.lower(e.text), "semanal")
    requires !Contains(o.lower(e.text), "diária")
    ensures Finding(Critical, WeeklyHoursExceeded(h, e.text)) in HoursCheck(o, values)
  {
    assert HoursFinding(o, e) == Some(Finding(Critical, WeeklyHoursExceeded(h, e.text)));
  }

  /** An amount whose text names more than 8 hours a day is reported by the
      hours loop as a daily excess. */
  lemma DailyHoursFound(o: Oracles, values: seq<MoneyEntity>, e: MoneyEntity, h: nat)
    requires e in values
    requires Contains(o.lower(e.text), "hora") && NumberBefore(o, HoursPattern, e.text) == Some(h)
    requires h > DailyHoursCap && Contains(o.lower(e.text), "diária")
    ensures Finding(Critical, DailyHoursExceeded(h, e.text)) in HoursCheck(o, values)
  {
    assert HoursFinding(o, e) == Some(Finding(Critical, DailyHoursExceeded(h, e.text)));
  }

  /** The daily check looks for "diária", which has an accent: on text without
      accents it never fires, while the weekly check still can. */
  lemma DailyHoursNeedAccent(o: Oracles, e: MoneyEntity)
    requires LowerAddsNoAccents(o) && NoAccents(e.text)
    ensures HoursFinding(o, e).Some? ==> HoursFinding(o, e).value.detail.WeeklyHoursExceeded?
  {
    var lowered := o.lower(e.text);
    assert NoAccents(lowered);
    assert IsAccented("diária"[2]);
    MissingCharNotContained(lowered, "diária", 2);
  }

  // ---------------------------------------------------------------------------
  // Invoices
  // ---------------------------------------------------------------------------

  /** `\d{2}\.\d{3}\.\d{3}/\d{4}-\d{2}`, case-sensitive. */
  const CnpjPattern: Regex := Regex("\\d{2}\\.\\d{3}\\.\\d{3}/\\d{4}-\\d{2}", false)

  function CnpjFinding(t: string, m: Match): Option<Finding> {
    var cnpj := Whole(m, t);
    if IsValidCnpj(cnpj) then None else Some(Finding(Critical, InvalidCnpj(cnpj)))
  }

  /** The CNPJ loop of the invoice branch: one critical finding per written
      CNPJ whose check digits fail. */
  function CnpjCheck(o: Oracles, t: string): (r: seq<Finding>)
    ensures forall f | f in r :: f.severity == Critical && f.detail.InvalidCnpj?
  {
    FilterMap(o.findAll(CnpjPattern, t), (m: Match) => CnpjFinding(t, m))
  }

  /** The CNPJ check reports exactly the written numbers whose check digits
      fail, each by its text. */
  lemma CnpjCheckExact(o: Oracles, t: string)
    ensures forall f :: f in CnpjCheck(o, t) <==>
      exists m :: m in o.findAll(CnpjPattern, t) && !IsValidCnpj(Whole(m, t)) &&
                  f == Finding(Critical, InvalidCnpj(Whole(m, t)))
  {
  }

  /** `valor.*?(\d+[.,]\d{2})`, case-insensitive. */
  const InvoiceValuePattern: Regex := Regex("valor.*?(\\d+[.,]\\d{2})", true)

  function InvoiceValue(m: Match): Option<real> {
    if |m.groups| == 0 then None else ParseFloat(CommaDecimal(m.groups[0]))
  }

  /** The amounts `_validar_valores_nota_fiscal` reads, in match order. */
  function InvoiceValues(o: Oracles, t: string): (r: seq<real>)
    ensures forall v | v in r :: v >= 0.0
    ensures forall v :: v in r <==> exists m :: m in o.findAll(InvoiceValuePattern, t) && InvoiceValue(m) == Some(v)
  {
    FilterMap(o.findAll(InvoiceValuePattern, t), InvoiceValue)
  }

  function Max(xs: seq<real>): (r: real)
    requires |xs| > 0
    ensures r in xs && forall x | x in xs :: x <= r
  {
    if |xs| == 1 then xs[0]
    else
      var m := Max(xs[1..]);
      assert forall x | x in xs :: x == xs[0] || x in xs[1..];
      if xs[0] >= m then xs[0] else m
  }

  function Min(xs: seq<real>): (r: real)
    requires |xs| > 0
    ensures r in xs && forall x | x in xs :: r <= x
  {
    if |xs| == 1 then xs[0]
    else
      var m := Min(xs[1..]);
      assert forall x | x in xs :: x == xs[0] || x in xs[1..];
      if xs[0] <= m then xs[0] else m
  }

  /** The consistency test on the amounts: at least two, and the largest
      more than a thousand times the smallest. */
  function ValuesCheck(values: seq<real>): (r: seq<Finding>)
    ensures |r| <= 1
    ensures forall f | f in r :: f.severity == High && f.detail.InconsistentValues?
  {
    if |values| >= 2 && Max(values) > Min(values) * 1000.0
    then [Finding(High, InconsistentValues(Min(values), Max(values)))]
    else []
  }

  /** `_validar_valores_nota_fiscal`. */
  function InvoiceValuesCheck(o: Oracles, t: string): (r: seq<Finding>)
    ensures |r| <= 1
    ensures forall f | f in r :: f.severity == High && f.detail.InconsistentValues?
  {
    ValuesCheck(InvoiceValues(o, t))
  }

  /** On non-negative amounts, the test fires exactly when some amount is more
      than a thousand times another. */
  lemma ValuesCheckIffSpread(values: seq<real>)
    requires forall v | v in values :: v >= 0.0
    ensures |ValuesCheck(values)| == 1 <==>
      |values| >= 2 && exists a, b | a in values && b in values :: b > a * 1000.0
  {
    if |values| >= 2 {
      var mx, mn := Max(values), Min(values);
      if exists a, b | a in values && b in values :: b > a * 1000.0 {
        var a, b :| a in values && b in values && b > a * 1000.0;
        assert mn * 1000.0 <= a * 1000.0;
      }
    }
  }

  /** A dot before the cents is taken for a thousands separator: the digits
      on both sides are read as one whole number, so "1234.56" is read as
      123456. */
  lemma DotCentsReadAsWhole(a: string, b: string)
    requires AllDigits(a) && AllDigits(b) && |b| == 2
    ensures InvoiceValue(Match(0, 0, [a + "." + b])) == Some(DigitsValue(a + b) as real)
  {
    var w := a + b;
    DropDot(a, b);
    assert a + "." + b == a + ['.'] + b;
    assert AllDigits(w);
    assert ReplaceAll(w, ',', '.') == w;
    ParseFloatWhole(w);
  }

  lemma DropDot(a: string, b: string)
    requires AllDigits(a) && AllDigits(b)
    ensures RemoveAll(a + ['.'] + b, '.') == a + b
  {
    DigitsLackChar(a, '.');
    DigitsLackChar(b, '.');
    DropDotBetween(a, b);
  }
}
