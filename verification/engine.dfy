/** `analisar_documento_completo` (app.py:943-1101): clean the text, give up
    on a short one, classify it, run the checks of its type, the regex pass
    and the similarity pass over the rules of its type, and score the
    findings. */
module Engine {
  import opened Wrappers
  import opened Text
  import opened Oracles
  import opened Catalog
  import opened Findings
  import opened Metrics
  import opened Normalize
  import opened Money
  import opened Checks
  import opened RuleScan
  import opened Similarity
  import opened Classifier

  /** Cleaned texts shorter than this are not analysed. */
  const MinTextLength: nat := 100

  /** The four values the source returns: the findings, the document type,
      the checklist of that type, and the metrics. */
  datatype Analysis = Analysis(findings: seq<Finding>, docType: DocType, checklist: seq<string>, metrics: Metrics)

  /** The answer for a text that is too short or of no known type. */
  function NoAnalysis(): Analysis {
    Analysis([], Unknown, [], Metrics(0, 0, 0, 0, 100, Regular))
  }

  /** `f` is a finding the checks of type `t` can produce: each numeric
      check belongs to the types whose branch runs it. */
  predicate FromTypeCheck(t: DocType, f: Finding) {
    && !RuleDriven(f)
    && (f.detail.SalaryBelowFloor? ==> t == Lease || t == Employment)
    && (f.detail.AbusiveFine? || f.detail.ExcessiveDeposit? ==> t == Lease)
    && (f.detail.DailyHoursExceeded? || f.detail.WeeklyHoursExceeded? ==> t == Employment)
    && (f.detail.InvalidCnpj? || f.detail.InconsistentValues? ==> t == Invoice)
  }

  /** The checks of a lease: salary, fine, deposit. */
  function LeaseChecks(o: Oracles, values: seq<MoneyEntity>): (r: seq<Finding>)
    ensures forall f | f in r :: FromTypeCheck(Lease, f)
  {
    SalaryCheck(values) + FineCheck(o, values) + DepositCheck(o, values)
  }

  /** The checks of an employment contract: salary, working hours. */
  function EmploymentChecks(o: Oracles, values: seq<MoneyEntity>): (r: seq<Finding>)
    ensures forall f | f in r :: FromTypeCheck(Employment, f)
  {
    SalaryCheck(values) + HoursCheck(o, values)
  }

  /** The checks of an invoice: CNPJ check digits, value spread. */
  function InvoiceChecks(o: Oracles, raw: string): (r: seq<Finding>)
    ensures forall f | f in r :: FromTypeCheck(Invoice, f)
  {
    var cnpj := CnpjCheck(o, raw);
    var spread := InvoiceValuesCheck(o, raw);
    InvoiceFindingsFromType(cnpj, spread);
    cnpj + spread
  }

  lemma InvoiceFindingsFromType(cnpj: seq<Finding>, spread: seq<Finding>)
    requires forall f | f in cnpj :: f.detail.InvalidCnpj?
    requires forall f | f in spread :: f.detail.InconsistentValues?
    ensures forall f | f in cnpj + spread :: FromTypeCheck(Invoice, f)
  {
  }

  /** The checks that belong to one document type. The amounts are read from
      the cleaned text; the CNPJ and invoice-value checks read the text as
      it was given. A service contract has none. */
  function TypeChecks(o: Oracles, docType: DocType, raw: string, clean: string): seq<Finding> {
    match docType
    case Lease => LeaseChecks(o, ExtractMoney(o, clean))
    case Employment => EmploymentChecks(o, ExtractMoney(o, clean))
    case Invoice => InvoiceChecks(o, raw)
    case _ => []
  }

  /** Each type runs only its own checks. */
  lemma TypeChecksFromType(o: Oracles, docType: DocType, raw: string, clean: string)
    ensures forall f | f in TypeChecks(o, docType, raw, clean) :: FromTypeCheck(docType, f)
  {
  }

  /** The rules of type `t` in catalog `tab`; the unknown type has none. */
  function Rules(tab: Table, t: DocType): seq<Rule> {
    if t == Unknown then [] else Entry(tab, t).rules
  }

  /** All findings for a text of type `docType` whose rules are `rules`, in
      the order the source appends them: the type's checks, the regex pass,
      the similarity pass. */
  function AllFindings(o: Oracles, docType: DocType, raw: string, clean: string, rules: seq<Rule>): seq<Finding> {
    TypeChecks(o, docType, raw, clean) + ScanRuleList(o, clean, docType, rules) + ClausesOf(o, clean, docType, rules)
  }

  /** The checklist (`o_que_verificamos`) shown for a type. */
  function Checklist(tab: Table, t: DocType): seq<string> {
    if t == Unknown then [] else Entry(tab, t).checklist
  }

  /** `analisar_documento_completo` of a detector holding catalog `tab`. */
  function Analyze(o: Oracles, tab: Table, raw: string): Analysis {
    var clean := Clean(o, raw);
    if |clean| < MinTextLength then NoAnalysis()
    else
      var t := Classify(o, tab, clean);
      if t == Unknown then NoAnalysis()
      else
        var fs := AllFindings(o, t, raw, clean, Rules(tab, t));
        Analysis(fs, t, Checklist(tab, t), ComputeMetrics(fs))
  }

  /** The metrics are always those of the findings returned. */
  lemma AnalyzeMetrics(o: Oracles, tab: Table, raw: string)
    ensures Analyze(o, tab, raw).metrics == ComputeMetrics(Analyze(o, tab, raw).findings)
  {
    if Analyze(o, tab, raw).docType == Unknown {
      UnknownTypeNotAnalysed(o, tab, raw);
      EmptyMetrics();
    } else {
      KnownTypeMetrics(o, tab, raw);
    }
  }

  lemma KnownTypeMetrics(o: Oracles, tab: Table, raw: string)
    requires Analyze(o, tab, raw).docType != Unknown
    ensures Analyze(o, tab, raw).metrics == ComputeMetrics(Analyze(o, tab, raw).findings)
  {
  }

  /** A cleaned text under 100 characters gives no findings, the unknown
      type, no checklist, and the metrics of no findings. */
  lemma ShortTextNotAnalysed(o: Oracles, tab: Table, raw: string)
    ensures |Clean(o, raw)| < MinTextLength ==> Analyze(o, tab, raw) == NoAnalysis()
  {
  }

  /** A long enough text gets the type the classifier gives its cleaned
      form. */
  lemma LongTextClassified(o: Oracles, tab: Table, raw: string)
    ensures |Clean(o, raw)| >= MinTextLength ==> Analyze(o, tab, raw).docType == Classify(o, tab, Clean(o, raw))
  {
  }

  /** A text of no known type gets nothing but the metrics of no findings. */
  lemma UnknownTypeNotAnalysed(o: Oracles, tab: Table, raw: string)
    ensures Analyze(o, tab, raw).docType == Unknown ==> Analyze(o, tab, raw) == NoAnalysis()
  {
  }

  /** A text of a known type gets that type's checklist. */
  lemma KnownTypeChecklist(o: Oracles, tab: Table, raw: string)
    ensures var r := Analyze(o, tab, raw);
      r.docType != Unknown ==> r.checklist == Checklist(tab, r.docType)
  {
  }

  /** The findings of a text of a known type are all the findings of that
      type's rules. */
  lemma AnalyzeFindings(o: Oracles, tab: Table, raw: string)
    ensures var r := Analyze(o, tab, raw);
      r.docType != Unknown ==> r.findings == AllFindings(o, r.docType, raw, Clean(o, raw), Rules(tab, r.docType))
  {
  }

  /** With the standard catalog, a text of a known type gets the findings of
      its type's checks, then those of the regex pass over the cleaned text,
      then those of the similarity pass, in that order. */
  lemma KnownTypeFindings(o: Oracles, raw: string)
    ensures var r := Analyze(o, Standard, raw);
      r.docType != Unknown ==>
        r.findings == TypeChecks(o, r.docType, raw, Clean(o, raw)) + ScanRules(o, Clean(o, raw), r.docType) +
                      SimilarClauses(o, Clean(o, raw), r.docType)
  {
    AnalyzeFindings(o, Standard, raw);
  }

  // ---------------------------------------------------------------------------
  // Properties of the whole analysis
  // ---------------------------------------------------------------------------

  /** Where a finding comes from: a numeric check that belongs to type `t`,
      or one of `rules` applied to a document of type `t`, with that rule's
      severity. */
  predicate Attributed(t: DocType, rules: seq<Rule>, f: Finding) {
    && (RuleDriven(f) ==> f.detail.docType == t && f.detail.rule in rules && f.severity == f.detail.rule.severity)
    && (!RuleDriven(f) ==> FromTypeCheck(t, f))
  }

  lemma AllFindingsAttributed(o: Oracles, t: DocType, raw: string, clean: string, rules: seq<Rule>)
    ensures forall f | f in AllFindings(o, t, raw, clean, rules) :: Attributed(t, rules, f)
  {
    var checks := TypeChecks(o, t, raw, clean);
    var matches := ScanRuleList(o, clean, t, rules);
    var clauses := ClausesOf(o, clean, t, rules);
    TypeChecksAttributed(o, t, raw, clean, rules);
    ClausesAttributed(o, t, clean, rules);
    PartsAttributed(t, rules, checks, matches, clauses);
  }

  lemma TypeChecksAttributed(o: Oracles, t: DocType, raw: string, clean: string, rules: seq<Rule>)
    ensures forall f | f in TypeChecks(o, t, raw, clean) :: Attributed(t, rules, f)
  {
    TypeChecksFromType(o, t, raw, clean);
  }

  lemma ClausesAttributed(o: Oracles, t: DocType, clean: string, rules: seq<Rule>)
    ensures forall f | f in ClausesOf(o, clean, t, rules) :: Attributed(t, rules, f)
  {
    ClausesOfRules(o, clean, t, rules);
  }

  lemma PartsAttributed(t: DocType, rules: seq<Rule>, checks: seq<Finding>, matches: seq<Finding>, clauses: seq<Finding>)
    requires forall f | f in checks :: Attributed(t, rules, f)
    requires forall f | f in matches ::
      f.detail.RuleMatch? && f.detail.docType == t && f.detail.rule in rules && f.severity == f.detail.rule.severity
    requires forall f | f in clauses :: Attributed(t, rules, f)
    ensures forall f | f in checks + matches + clauses :: Attributed(t, rules, f)
  {
  }

  /** Every finding of the analysis is attributed to the document's type:
      no numeric check runs outside its type's branch, every rule-driven
      finding carries a catalog rule of that type, and no rule-driven finding
      is promoted above its rule's severity. */
  lemma FindingsAttributed(o: Oracles, tab: Table, raw: string)
    ensures var r := Analyze(o, tab, raw);
      r.docType != Unknown ==> forall f | f in r.findings :: Attributed(r.docType, Rules(tab, r.docType), f)
  {
    var r := Analyze(o, tab, raw);
    if r.docType != Unknown {
      AnalyzeFindings(o, tab, raw);
      AllFindingsAttributed(o, r.docType, raw, Clean(o, raw), Rules(tab, r.docType));
    }
  }

  /** With the standard catalog, every rule-driven finding names a catalog
      rule of the document's type and carries that rule's severity. */
  lemma StandardFindingsFromCatalog(o: Oracles, raw: string)
    ensures forall f | f in Analyze(o, Standard, raw).findings :: SeverityFromCatalog(f)
  {
    FindingsAttributed(o, Standard, raw);
  }

  /** A salary amount below the floor in a lease or employment text is
      among the findings, whatever the rules. */
  lemma LowWageFound(o: Oracles, t: DocType, raw: string, clean: string, rules: seq<Rule>, e: MoneyEntity)
    requires t == Lease || t == Employment
    requires e in ExtractMoney(o, clean) && e.kind == SalaryValue && e.value < MinimumWage
    ensures Finding(Critical, SalaryBelowFloor(e.value, e.text)) in AllFindings(o, t, raw, clean, rules)
  {
    var w := Finding(Critical, SalaryBelowFloor(e.value, e.text));
    LowWageInTypeChecks(o, t, raw, clean, e);
    InFirstPart(TypeChecks(o, t, raw, clean), ScanRuleList(o, clean, t, rules), ClausesOf(o, clean, t, rules), w);
  }

  lemma InFirstPart(a: seq<Finding>, b: seq<Finding>, c: seq<Finding>, w: Finding)
    requires w in a
    ensures w in a + b + c
  {
  }

  lemma LowWageInTypeChecks(o: Oracles, t: DocType, raw: string, clean: string, e: MoneyEntity)
    requires t == Lease || t == Employment
    requires e in ExtractMoney(o, clean) && e.kind == SalaryValue && e.value < MinimumWage
    ensures Finding(Critical, SalaryBelowFloor(e.value, e.text)) in TypeChecks(o, t, raw, clean)
  {
    var w := Finding(Critical, SalaryBelowFloor(e.value, e.text));
    LowWageInSalaryCheck(ExtractMoney(o, clean), e);
    if t == Lease {
      SalaryInLeaseTypeChecks(o, raw, clean, w);
    } else {
      SalaryInEmploymentTypeChecks(o, raw, clean, w);
    }
  }

  lemma LowWageInSalaryCheck(values: seq<MoneyEntity>, e: MoneyEntity)
    requires e in values && e.kind == SalaryValue && e.value < MinimumWage
    ensures Finding(Critical, SalaryBelowFloor(e.value, e.text)) in SalaryCheck(values)
  {
  }

  lemma SalaryInLeaseTypeChecks(o: Oracles, raw: string, clean: string, w: Finding)
    requires w in SalaryCheck(ExtractMoney(o, clean))
    ensures w in TypeChecks(o, Lease, raw, clean)
  {
    SalaryInLeaseChecks(o, ExtractMoney(o, clean), w);
    LeaseTypeChecks(o, raw, clean);
  }

  lemma SalaryInEmploymentTypeChecks(o: Oracles, raw: string, clean: string, w: Finding)
    requires w in SalaryCheck(ExtractMoney(o, clean))
    ensures w in TypeChecks(o, Employment, raw, clean)
  {
    SalaryInEmploymentChecks(o, ExtractMoney(o, clean), w);
    EmploymentTypeChecks(o, raw, clean);
  }

  lemma LeaseTypeChecks(o: Oracles, raw: string, clean: string)
    ensures TypeChecks(o, Lease, raw, clean) == LeaseChecks(o, ExtractMoney(o, clean))
  {
  }

  lemma EmploymentTypeChecks(o: Oracles, raw: string, clean: string)
    ensures TypeChecks(o, Employment, raw, clean) == EmploymentChecks(o, ExtractMoney(o, clean))
  {
  }

  lemma SalaryInLeaseChecks(o: Oracles, values: seq<MoneyEntity>, w: Finding)
    requires w in SalaryCheck(values)
    ensures w in LeaseChecks(o, values)
  {
    assert LeaseChecks(o, values) == SalaryCheck(values) + (FineCheck(o, values) + DepositCheck(o, values));
  }

  lemma SalaryInEmploymentChecks(o: Oracles, values: seq<MoneyEntity>, w: Finding)
    requires w in SalaryCheck(values)
    ensures w in EmploymentChecks(o, values)
  {
  }

  /** The salary check of a lease or an employment contract: every salary
      amount read from the cleaned text below R$ 1.412,00 is reported as a
      critical finding, so the document is rated at critical risk or worse. */
  lemma LowWageReported(o: Oracles, tab: Table, raw: string, e: MoneyEntity)
    requires Analyze(o, tab, raw).docType == Lease || Analyze(o, tab, raw).docType == Employment
    requires e in ExtractMoney(o, Clean(o, raw)) && e.kind == SalaryValue && e.value < MinimumWage
    ensures Finding(Critical, SalaryBelowFloor(e.value, e.text)) in Analyze(o, tab, raw).findings
    ensures Analyze(o, tab, raw).metrics.critical >= 1
    ensures Analyze(o, tab, raw).metrics.risk in {Emergency, HighRiskUrgent, CriticalRiskDetected}
  {
    LowWageListed(o, tab, raw, e);
    CriticalFindingRatesDocument(o, tab, raw, Finding(Critical, SalaryBelowFloor(e.value, e.text)));
  }

  lemma CriticalFindingRatesDocument(o: Oracles, tab: Table, raw: string, w: Finding)
    requires w in Analyze(o, tab, raw).findings && w.severity == Critical
    ensures Analyze(o, tab, raw).metrics.critical >= 1
    ensures Analyze(o, tab, raw).metrics.risk in {Emergency, HighRiskUrgent, CriticalRiskDetected}
  {
    AnalyzeMetrics(o, tab, raw);
    CriticalFindingRatesAnalysis(Analyze(o, tab, raw), w);
  }

  lemma CriticalFindingRatesAnalysis(r: Analysis, w: Finding)
    requires r.metrics == ComputeMetrics(r.findings) && w in r.findings && w.severity == Critical
    ensures r.metrics.critical >= 1
    ensures r.metrics.risk in {Emergency, HighRiskUrgent, CriticalRiskDetected}
  {
    CriticalFindingRaisesRisk(r.findings, w);
  }

  lemma LowWageListed(o: Oracles, tab: Table, raw: string, e: MoneyEntity)
    requires Analyze(o, tab, raw).docType == Lease || Analyze(o, tab, raw).docType == Employment
    requires e in ExtractMoney(o, Clean(o, raw)) && e.kind == SalaryValue && e.value < MinimumWage
    ensures Finding(Critical, SalaryBelowFloor(e.value, e.text)) in Analyze(o, tab, raw).findings
  {
    var r := Analyze(o, tab, raw);
    AnalyzeFindings(o, tab, raw);
    LowWageFound(o, r.docType, raw, Clean(o, raw), Rules(tab, r.docType), e);
  }

  /** The hours check of an employment contract: an amount read from the
      cleaned text that names more than 44 weekly hours is reported as a
      critical finding, so the document is rated at critical risk or worse. */
  lemma ExcessWeeklyHoursReported(o: Oracles, tab: Table, raw: string, e: MoneyEntity, h: nat)
    requires Analyze(o, tab, raw).docType == Employment
    requires e in ExtractMoney(o, Clean(o, raw))
    requires Contains(o.lower(e.text), "hora") && NumberBefore(o, HoursPattern, e.text) == Some(h)
    requires h > WeeklyHoursCap && Contains(o.lower(e.text), "semanal")
    requires !Contains(o.lower(e.text), "diária")
    ensures Finding(Critical, WeeklyHoursExceeded(h, e.text)) in Analyze(o, tab, raw).findings
    ensures Analyze(o, tab, raw).metrics.risk in {Emergency, HighRiskUrgent, CriticalRiskDetected}
  {
    var w := Finding(Critical, WeeklyHoursExceeded(h, e.text));
    WeeklyHoursListed(o, tab, raw, e, h);
    CriticalFindingRatesDocument(o, tab, raw, w);
  }

  lemma WeeklyHoursListed(o: Oracles, tab: Table, raw: string, e: MoneyEntity, h: nat)
    requires Analyze(o, tab, raw).docType == Employment
    requires e in ExtractMoney(o, Clean(o, raw))
    requires Contains(o.lower(e.text), "hora") && NumberBefore(o, HoursPattern, e.text) == Some(h)
    requires h > WeeklyHoursCap && Contains(o.lower(e.text), "semanal")
    requires !Contains(o.lower(e.text), "diária")
    ensures Finding(Critical, WeeklyHoursExceeded(h, e.text)) in Analyze(o, tab, raw).findings
  {
    var clean := Clean(o, raw);
    var rules := Rules(tab, Employment);
    var w := Finding(Critical, WeeklyHoursExceeded(h, e.text));
    AnalyzeFindings(o, tab, raw);
    WeeklyHoursFound(o, ExtractMoney(o, clean), e, h);
    HoursInEmploymentChecks(o, ExtractMoney(o, clean), w);
    EmploymentTypeChecks(o, raw, clean);
    InFirstPart(TypeChecks(o, Employment, raw, clean), ScanRuleList(o, clean, Employment, rules), ClausesOf(o, clean, Employment, rules), w);
  }

  lemma HoursInEmploymentChecks(o: Oracles, values: seq<MoneyEntity>, w: Finding)
    requires w in HoursCheck(o, values)
    ensures w in EmploymentChecks(o, values)
  {
  }

  /** One critical finding is enough to reach the critical rungs of the
      risk ladder. */
  lemma CriticalFindingRaisesRisk(fs: seq<Finding>, w: Finding)
    requires w in fs && w.severity == Critical
    ensures ComputeMetrics(fs).critical >= 1
    ensures ComputeMetrics(fs).risk in {Emergency, HighRiskUrgent, CriticalRiskDetected}
  {
    var i :| 0 <= i < |fs| && fs[i] == w;
    NoCriticalMetrics(fs);
  }

  /** When the fold removes accents and capitals, the classifier sees on the
      cleaned text none of its accented or capitalised words: the fallback
      answers "invoice" exactly on "nota fiscal" or "chave acesso" and never
      answers "service contract", and the employment and invoice vocabularies
      score only through their plain words. */
  lemma CleanTextVocabulary(o: Oracles, raw: string)
    requires FoldStripsAccents(o) && FoldLeavesNoCapitals(o)
    ensures var s := Clean(o, raw);
      && (Fallback(s) == Invoice <==> Contains(s, "nota fiscal") || Contains(s, "chave acesso"))
      && Fallback(s) != Service
      && SumCounts(s, Vocabulary(Employment)) ==
           CountTerm(s, "empregado") + CountTerm(s, "empregador") + CountTerm(s, "carteira") + CountTerm(s, "horas extras")
      && SumCounts(s, Vocabulary(Invoice)) ==
           CountTerm(s, "chave acesso") + CountTerm(s, "protocolo") + CountTerm(s, "emitente")
  {
    var s := Clean(o, raw);
    CleanStripsAccents(o, raw);
    CleanHasNoCapitals(o, raw);
    FallbackOnCleanText(s);
    EmploymentVocabularyOnCleanText(s);
    InvoiceVocabularyOnCleanText(s);
  }

  /** The daily-hours check looks for "diária" in amounts read from the
      cleaned text, which has no accents left: it never reports anything. */
  lemma NoDailyHoursFinding(o: Oracles, tab: Table, raw: string)
    requires FoldStripsAccents(o) && LowerAddsNoAccents(o)
    ensures Analyze(o, tab, raw).docType != Unknown ==>
      forall f | f in Analyze(o, tab, raw).findings :: !f.detail.DailyHoursExceeded?
  {
    var r := Analyze(o, tab, raw);
    if r.docType != Unknown {
      AnalyzeFindings(o, tab, raw);
      CleanStripsAccents(o, raw);
      NoDailyHoursWithoutAccents(o, r.docType, raw, Clean(o, raw), Rules(tab, r.docType));
    }
  }

  lemma NoDailyHoursWithoutAccents(o: Oracles, t: DocType, raw: string, clean: string, rules: seq<Rule>)
    requires LowerAddsNoAccents(o) && NoAccents(clean)
    ensures forall f | f in AllFindings(o, t, raw, clean, rules) :: !f.detail.DailyHoursExceeded?
  {
    var checks := TypeChecks(o, t, raw, clean);
    var matches := ScanRuleList(o, clean, t, rules);
    var clauses := ClausesOf(o, clean, t, rules);
    NoDailyHoursInTypeChecks(o, t, raw, clean);
    ClausesOfRules(o, clean, t, rules);
    NoDailyHoursInParts(checks, matches, clauses);
  }

  lemma NoDailyHoursInParts(checks: seq<Finding>, matches: seq<Finding>, clauses: seq<Finding>)
    requires forall f | f in checks :: !f.detail.DailyHoursExceeded?
    requires forall f | f in matches :: f.detail.RuleMatch?
    requires forall f | f in clauses :: f.detail.SimilarClause? || f.detail.KeywordClause?
    ensures forall f | f in checks + matches + clauses :: !f.detail.DailyHoursExceeded?
  {
  }

  lemma NoDailyHoursInTypeChecks(o: Oracles, t: DocType, raw: string, clean: string)
    requires LowerAddsNoAccents(o) && NoAccents(clean)
    ensures forall f | f in TypeChecks(o, t, raw, clean) :: !f.detail.DailyHoursExceeded?
  {
    if t == Employment {
      var values := ExtractMoney(o, clean);
      assert EmploymentChecks(o, values) == SalaryCheck(values) + HoursCheck(o, values);
      AmountTextsHaveNoAccents(o, clean);
      NoDailyHoursInAmounts(o, values);
    }
  }

  /** Amounts whose texts have no accents give no daily-hours finding. */
  lemma NoDailyHoursInAmounts(o: Oracles, values: seq<MoneyEntity>)
    requires LowerAddsNoAccents(o)
    requires forall e | e in values :: NoAccents(e.text)
    ensures forall f | f in HoursCheck(o, values) :: !f.detail.DailyHoursExceeded?
  {
    forall f | f in HoursCheck(o, values) ensures !f.detail.DailyHoursExceeded? {
      var e :| e in values && HoursFinding(o, e) == Some(f);
      DailyHoursNeedAccent(o, e);
    }
  }

  lemma AmountTextsHaveNoAccents(o: Oracles, t: string)
    requires NoAccents(t)
    ensures forall e | e in ExtractMoney(o, t) :: NoAccents(e.text)
  {
    forall e | e in ExtractMoney(o, t) ensures NoAccents(e.text) {
      AmountTextHasNoAccents(o, t, e);
    }
  }

  /** The text of an amount is a slice of the text it was read from. */
  lemma AmountTextHasNoAccents(o: Oracles, t: string, e: MoneyEntity)
    requires NoAccents(t) && e in ExtractMoney(o, t)
    ensures NoAccents(e.text)
  {
    var p :| p in MoneyPatterns && e in MoneyFromPattern(o, t, p);
    var m :| m in o.findAll(MoneyRegex(p), t) && MoneyFromMatch(o, t, m) == Some(e);
    SliceKeepsNoAccents(t, m.start, m.end);
  }
}
