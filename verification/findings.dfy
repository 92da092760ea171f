/** The findings the engine reports. The source builds a dict per finding with
    a different set of keys for each producer; here each producer is a variant
    of `Detail`, and every finding carries its severity. */
module Findings {
  import opened Wrappers
  import opened Catalog

  datatype Detail =
    /** A regex hit of a catalog rule (app.py:1047-1073): the rule, the context
        window, the matched text and its offset, and the shortfall note of the
        minimum-wage rule when it applies. */
    | RuleMatch(docType: DocType, rule: Rule, context: string, matched: string, position: nat,
                belowFloor: Option<real>)
      /** An exemplar clause matched by similarity; `similarity` is the ratio
          times 100 (app.py:346-353, 1079-1093). */
    | SimilarClause(docType: DocType, rule: Rule, sentence: string, similarity: real)
      /** A rule keyword found in a sentence; reported with similarity 90
          (app.py:356-364). */
    | KeywordClause(docType: DocType, rule: Rule, sentence: string)
      /** The numeric checks that no single regex expresses. */
    | SalaryBelowFloor(value: real, text: string)
    | AbusiveFine(months: nat, text: string)
    | ExcessiveDeposit(months: nat, text: string)
    | DailyHoursExceeded(hours: nat, text: string)
    | WeeklyHoursExceeded(hours: nat, text: string)
    | InvalidCnpj(cnpj: string)
    | InconsistentValues(min: real, max: real)

  datatype Finding = Finding(severity: Severity, detail: Detail)

  /** The `id` key of a finding; the numeric checks set none. */
  function FindingId(f: Finding): string {
    match f.detail
    case RuleMatch(_, rule, _, _, _, _) => rule.id
    case SimilarClause(_, rule, _, _) => "similar_" + rule.id
    case KeywordClause(_, rule, _) => "similar_" + rule.id + "_palavra_chave"
    case _ => ""
  }

  /** The `confianca` key: fixed 0.95 for a regex hit, the similarity ratio
      for a similar clause, 90/100 for a keyword hit; the numeric checks set
      none. */
  function Confidence(f: Finding): Option<real> {
    match f.detail
    case RuleMatch(_, _, _, _, _, _) => Some(0.95)
    case SimilarClause(_, _, _, similarity) => Some(similarity / 100.0)
    case KeywordClause(_, _, _) => Some(0.90)
    case _ => None
  }

  /** Findings of rule-driven producers take their severity from the rule
      that fired: no finding is promoted above its configured severity. */
  predicate SeverityFromCatalog(f: Finding) {
    RuleDriven(f) ==> InCatalog(f.detail.docType, f.detail.rule) && f.severity == f.detail.rule.severity
  }

  /** The finding was produced by a catalog rule: a regex hit, a similar
      clause or a keyword hit. */
  predicate RuleDriven(f: Finding) {
    f.detail.RuleMatch? || f.detail.SimilarClause? || f.detail.KeywordClause?
  }
}
