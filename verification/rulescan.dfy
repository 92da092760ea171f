/** The regex pass of `analisar_documento_completo` (app.py:1037-1073): every
    rule of the document's type, every one of its patterns, every match in
    the cleaned text gives one finding carrying the rule, a window of context
    around the match, and — for the minimum-wage rule — a note when the
    captured amount is below the floor. */
module RuleScan {
  import opened Wrappers
  import opened Text
  import opened Oracles
  import opened Seqs
  import opened Catalog
  import opened Findings
  import opened Money

  /** Characters of context kept on each side of a match. */
  const ContextRadius: nat := 150

  /** The floor the minimum-wage note compares against, R$ 1.412,00. */
  const WageFloor: real := 1412.0

  function WindowStart(m: Match): nat {
    if m.start >= ContextRadius then m.start - ContextRadius else 0
  }

  function WindowEnd(t: string, m: Match): nat {
    if m.end + ContextRadius <= |t| then m.end + ContextRadius else |t|
  }

  /** `texto_limpo[max(0, start - 150):min(len, end + 150)]`. */
  function ContextWindow(t: string, m: Match): (r: string)
    ensures |r| <= |t|
    ensures m.start <= m.end <= |t| ==> |r| <= m.end - m.start + 2 * ContextRadius
  {
    PySlice(t, WindowStart(m), WindowEnd(t, m))
  }

  /** The `valor_especifico` note: only for a rule whose id names "salario",
      only when the match has a group, and only when that group reads as an
      amount below the floor. A group that does not read is passed over. */
  function BelowFloor(ruleId: string, m: Match): (r: Option<real>)
    ensures r.Some? ==> Contains(ruleId, "salario") && |m.groups| > 0
    ensures r.Some? <==> Contains(ruleId, "salario") && |m.groups| > 0 &&
                         exists v :: ParseFloat(CommaDecimal(m.groups[0])) == Some(v) && v < WageFloor
    ensures r.Some? ==> 0.0 <= r.value < WageFloor && ParseFloat(CommaDecimal(m.groups[0])) == r
  {
    if Contains(ruleId, "salario") && |m.groups| > 0 then
      match ParseFloat(CommaDecimal(m.groups[0]))
      case Some(v) => if v < WageFloor then Some(v) else None
      case None => None
    else None
  }

  /** The finding one match of one rule produces. */
  function RuleFinding(t: string, docType: DocType, rule: Rule, m: Match): Finding {
    Finding(rule.severity, RuleMatch(docType, rule, ContextWindow(t, m), Whole(m, t), m.start, BelowFloor(rule.id, m)))
  }

  /** The findings of one pattern of one rule, in match order. */
  function PatternFindings(o: Oracles, t: string, docType: DocType, rule: Rule, p: string): (r: seq<Finding>)
    ensures |r| == |o.findAll(Regex(p, true), t)|
    ensures forall f :: f in r <==> exists m :: m in o.findAll(Regex(p, true), t) && f == RuleFinding(t, docType, rule, m)
  {
    var ms := o.findAll(Regex(p, true), t);
    var r := Map(ms, (m: Match) => RuleFinding(t, docType, rule, m));
    assert forall f :: f in r <==> exists i | 0 <= i < |ms| :: f == RuleFinding(t, docType, rule, ms[i]);
    r
  }

  function RuleFindings(o: Oracles, t: string, docType: DocType, rule: Rule): (r: seq<Finding>)
    ensures forall f :: f in r <==>
      exists p, m :: p in rule.patterns && m in o.findAll(Regex(p, true), t) && f == RuleFinding(t, docType, rule, m)
  {
    FlatMap(rule.patterns, (p: string) => PatternFindings(o, t, docType, rule, p))
  }

  /** The regex pass over a list of rules, in rule order. */
  function ScanRuleList(o: Oracles, t: string, docType: DocType, rules: seq<Rule>): (r: seq<Finding>)
    ensures forall f :: f in r <==>
      exists rule, p, m :: rule in rules && p in rule.patterns &&
                           m in o.findAll(Regex(p, true), t) && f == RuleFinding(t, docType, rule, m)
    ensures forall f | f in r ::
      f.detail.RuleMatch? && f.detail.docType == docType && f.detail.rule in rules &&
      f.severity == f.detail.rule.severity && Confidence(f) == Some(0.95)
  {
    FlatMap(rules, (rule: Rule) => RuleFindings(o, t, docType, rule))
  }

  /** The regex pass over the rules of a catalog type. */
  function ScanRules(o: Oracles, t: string, docType: DocType): seq<Finding>
    requires docType != Unknown
  {
    ScanRuleList(o, t, docType, Config(docType).rules)
  }

  /** Every finding of the regex pass carries a catalog rule of the
      document's type, that rule's severity, and confidence 0.95. */
  lemma ScanRulesFromCatalog(o: Oracles, t: string, docType: DocType)
    requires docType != Unknown
    ensures forall f | f in ScanRules(o, t, docType) ::
      SeverityFromCatalog(f) && f.detail.RuleMatch? && f.detail.docType == docType &&
      Confidence(f) == Some(0.95)
  {
    var rules := Config(docType).rules;
    assert ScanRules(o, t, docType) == ScanRuleList(o, t, docType, rules);
  }

  /** The context window holds the matched text, at the offset the match
      has inside the window. */
  lemma ContextHoldsMatch(t: string, m: Match)
    requires m.start <= m.end <= |t|
    ensures OccursAt(ContextWindow(t, m), Whole(m, t), m.start - WindowStart(m))
    ensures Contains(ContextWindow(t, m), Whole(m, t))
  {
    var lo, hi := WindowStart(m), WindowEnd(t, m);
    var w := ContextWindow(t, m);
    assert w == t[lo..hi] && Whole(m, t) == t[m.start..m.end];
    SliceOfSlice(t, lo, hi, m.start, m.end);
    assert OccursAt(w, Whole(m, t), m.start - lo);
    ContainsIffOccurs(w, Whole(m, t));
  }

  lemma SliceOfSlice(t: string, lo: nat, hi: nat, a: nat, b: nat)
    requires lo <= a <= b <= hi <= |t|
    ensures t[lo..hi][a - lo..b - lo] == t[a..b]
  {
    var u := t[lo..hi][a - lo..b - lo];
    assert |u| == b - a;
    assert forall i | 0 <= i < b - a :: u[i] == t[a + i];
  }

  /** Away from the ends of the text the window is exactly 150 characters on
      each side of the match. */
  lemma FullWindow(t: string, m: Match)
    requires ContextRadius <= m.start <= m.end && m.end + ContextRadius <= |t|
    ensures ContextWindow(t, m) == t[m.start - ContextRadius..m.end + ContextRadius]
    ensures |ContextWindow(t, m)| == m.end - m.start + 2 * ContextRadius
  {
  }

  /** The note reads a Brazilian amount exactly, with or without thousands
      dots: `replace('.', '').replace(',', '.')` turns "1.234,56" into
      "1234.56". */
  lemma CommaDecimalReadsBrazilian(cents: nat)
    ensures ParseFloat(CommaDecimal(FormatBrazilian(cents))) == Some(DecimalShift(cents as real, 2))
  {
    var g, f := Grouped(cents / 100, '.'), Fixed(cents % 100, 2);
    var d := RemoveAll(g, '.');
    assert FormatBrazilian(cents) == g + [','] + f;
    RemoveAround(g, ',', f, '.');
    RemoveAllDigitsNoOp(f, '.');
    assert RemoveAll([','], '.') == [','];
    ReadCommaDecimalParts(cents, g, f, d);
  }

  lemma ReadCommaDecimalParts(cents: nat, g: string, f: string, d: string)
    requires AllDigits(d) && AllDigits(f) && |f| == 2
    requires RemoveAll(g + [','] + f, '.') == d + [','] + f
    requires DigitsValue(d) == cents / 100 && DigitsValue(f) == cents % 100
    ensures ParseFloat(CommaDecimal(g + [','] + f)) == Some(DecimalShift(cents as real, 2))
  {
    assert 0 < |d| + |f|;
    ReplaceOneComma(d, f);
    ParseFloatPoint(d, f);
    CentsValue(cents, d, f);
  }

  /** A salary rule whose match captures a Brazilian amount is annotated
      exactly when the amount is below R$ 1.412,00. */
  lemma SalaryNoteIffBelowFloor(ruleId: string, m: Match, cents: nat)
    requires Contains(ruleId, "salario") && |m.groups| > 0 && m.groups[0] == FormatBrazilian(cents)
    ensures BelowFloor(ruleId, m).Some? <==> cents < 141200
    ensures cents < 141200 ==> BelowFloor(ruleId, m) == Some(DecimalShift(cents as real, 2))
  {
    CommaDecimalReadsBrazilian(cents);
    ShiftTwo(cents as real);
  }
}
