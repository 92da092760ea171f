/** The clause-similarity pass (`_detectar_clausulas_similares_avancado`,
    app.py:327-365, wrapped into findings at app.py:1075-1095): the cleaned
    text is cut into sentences at runs of `.;!?`, each stripped sentence of
    at least 15 characters is compared with every exemplar clause of every
    rule, and searched for every keyword of every rule. */
module Similarity {
  import opened Wrappers
  import opened Text
  import opened Oracles
  import opened Seqs
  import opened Catalog
  import opened Findings

  /** The delimiter class `[.;!?]`. */
  predicate IsSentenceEnd(c: char) {
    c == '.' || c == ';' || c == '!' || c == '?'
  }

  /** Sentences shorter than this are skipped. */
  const MinSentence: nat := 15

  /** A ratio must exceed this to count as a similar clause. */
  const Threshold: real := 0.75

  /** The similarity a keyword hit is reported with, in percent. */
  const KeywordSimilarity: real := 90.0

  function SentenceOf(piece: string): (r: Option<string>)
    ensures r.Some? ==> MinSentence <= |r.value| && !IsSpace(r.value[0]) && !IsSpace(r.value[|r.value| - 1])
    ensures r.Some? ==> exists k :: OccursAt(piece, r.value, k)
  {
    var s := Strip(piece);
    if |s| < MinSentence then None else Some(s)
  }

  /** The sentences the pass examines, in text order. */
  function Sentences(t: string): (r: seq<string>)
    ensures forall s :: s in r <==> exists piece :: piece in SplitRuns(t, IsSentenceEnd) && SentenceOf(piece) == Some(s)
  {
    FilterMap(SplitRuns(t, IsSentenceEnd), SentenceOf)
  }

  /** A sentence is stripped and at least 15 characters long. */
  lemma SentenceShape(t: string, s: string)
    requires s in Sentences(t)
    ensures MinSentence <= |s| && !IsSpace(s[0]) && !IsSpace(s[|s| - 1])
  {
    var piece :| piece in SplitRuns(t, IsSentenceEnd) && SentenceOf(piece) == Some(s);
    StrippedPiece(piece, s);
  }

  lemma StrippedPiece(piece: string, s: string)
    requires SentenceOf(piece) == Some(s)
    ensures MinSentence <= |s| && !IsSpace(s[0]) && !IsSpace(s[|s| - 1])
  {
  }

  /** A sentence holds no delimiter: it lies inside one piece of the split. */
  lemma SentencesHaveNoDelimiters(t: string, s: string)
    requires s in Sentences(t)
    ensures forall i | 0 <= i < |s| :: !IsSentenceEnd(s[i])
  {
    var piece :| piece in SplitRuns(t, IsSentenceEnd) && SentenceOf(piece) == Some(s);
    var k :| OccursAt(piece, s, k);
    PieceHasNoDelimiters(t, piece);
    InfixHasNoDelimiters(piece, s, k);
  }

  lemma PieceHasNoDelimiters(t: string, piece: string)
    requires piece in SplitRuns(t, IsSentenceEnd)
    ensures forall i | 0 <= i < |piece| :: !IsSentenceEnd(piece[i])
  {
    var parts := SplitRuns(t, IsSentenceEnd);
    var j :| 0 <= j < |parts| && parts[j] == piece;
    assert forall i | 0 <= i < |parts[j]| :: !IsSentenceEnd(parts[j][i]);
  }

  lemma InfixHasNoDelimiters(piece: string, s: string, k: int)
    requires OccursAt(piece, s, k)
    requires forall i | 0 <= i < |piece| :: !IsSentenceEnd(piece[i])
    ensures forall i | 0 <= i < |s| :: !IsSentenceEnd(s[i])
  {
    forall i | 0 <= i < |s| ensures !IsSentenceEnd(s[i]) {
      assert s[i] == piece[k..k + |s|][i] == piece[k + i];
    }
  }

  /** The clause found when `exemplar` is similar enough to `s`. */
  function ExemplarClause(o: Oracles, docType: DocType, rule: Rule, s: string, exemplar: string): Option<Finding> {
    var ratio := o.ratio(o.lower(s), o.lower(exemplar));
    if ratio > Threshold then Some(Finding(rule.severity, SimilarClause(docType, rule, s, ratio * 100.0))) else None
  }

  /** The clause found when `s`, lower-cased, contains `keyword`. */
  function KeywordHit(o: Oracles, docType: DocType, rule: Rule, s: string, keyword: string): Option<Finding> {
    if Contains(o.lower(s), keyword) then Some(Finding(rule.severity, KeywordClause(docType, rule, s))) else None
  }

  /** One sentence against one rule: its similar exemplars first, then its
      keywords, each in list order. */
  function SentenceRuleClauses(o: Oracles, docType: DocType, rule: Rule, s: string): (r: seq<Finding>)
    ensures forall f :: f in r <==>
      (exists ex :: ex in rule.exemplars && o.ratio(o.lower(s), o.lower(ex)) > Threshold &&
                    f == Finding(rule.severity, SimilarClause(docType, rule, s, o.ratio(o.lower(s), o.lower(ex)) * 100.0))) ||
      (exists kw :: kw in rule.keywords && Contains(o.lower(s), kw) &&
                    f == Finding(rule.severity, KeywordClause(docType, rule, s)))
  {
    FilterMap(rule.exemplars, (ex: string) => ExemplarClause(o, docType, rule, s, ex)) +
    FilterMap(rule.keywords, (kw: string) => KeywordHit(o, docType, rule, s, kw))
  }

  function SentenceClauses(o: Oracles, docType: DocType, rules: seq<Rule>, s: string): (r: seq<Finding>)
    ensures forall f :: f in r <==> exists rule :: rule in rules && f in SentenceRuleClauses(o, docType, rule, s)
  {
    FlatMap(rules, (rule: Rule) => SentenceRuleClauses(o, docType, rule, s))
  }

  /** The pass over a list of rules, sentence by sentence. */
  function ClausesOf(o: Oracles, t: string, docType: DocType, rules: seq<Rule>): (r: seq<Finding>)
    ensures forall f :: f in r <==> exists s :: s in Sentences(t) && f in SentenceClauses(o, docType, rules, s)
  {
    FlatMap(Sentences(t), (s: string) => SentenceClauses(o, docType, rules, s))
  }

  /** A clause of one sentence against one rule names that rule, its
      severity, the document type and the sentence. */
  lemma RuleClauseShape(o: Oracles, docType: DocType, rule: Rule, s: string, f: Finding)
    requires f in SentenceRuleClauses(o, docType, rule, s)
    ensures f.detail.SimilarClause? || f.detail.KeywordClause?
    ensures f.detail.docType == docType && f.detail.rule == rule && f.detail.sentence == s
    ensures f.severity == rule.severity
  {
  }

  /** Every clause carries one of the rules it was given, that rule's
      severity, and a sentence the pass examined. */
  lemma ClausesOfRules(o: Oracles, t: string, docType: DocType, rules: seq<Rule>)
    ensures forall f | f in ClausesOf(o, t, docType, rules) ::
      (f.detail.SimilarClause? || f.detail.KeywordClause?) &&
      f.detail.docType == docType && f.detail.rule in rules && f.severity == f.detail.rule.severity &&
      f.detail.sentence in Sentences(t)
  {
    forall f | f in ClausesOf(o, t, docType, rules)
      ensures (f.detail.SimilarClause? || f.detail.KeywordClause?) &&
              f.detail.docType == docType && f.detail.rule in rules && f.severity == f.detail.rule.severity &&
              f.detail.sentence in Sentences(t)
    {
      var s :| s in Sentences(t) && f in SentenceClauses(o, docType, rules, s);
      var rule :| rule in rules && f in SentenceRuleClauses(o, docType, rule, s);
      RuleClauseShape(o, docType, rule, s, f);
    }
  }

  /** The pass over the rules of a catalog type. */
  function SimilarClauses(o: Oracles, t: string, docType: DocType): (r: seq<Finding>)
    requires docType != Unknown
  {
    ClausesOf(o, t, docType, Config(docType).rules)
  }

  /** Every clause finding carries one of the rules it was given and that
      rule's severity, and quotes a sentence of at least 15 characters. */
  lemma ClausesQuoteLongSentences(o: Oracles, t: string, docType: DocType, rules: seq<Rule>)
    ensures forall f | f in ClausesOf(o, t, docType, rules) ::
      (f.detail.SimilarClause? || f.detail.KeywordClause?) &&
      f.detail.docType == docType && f.detail.rule in rules && f.severity == f.detail.rule.severity &&
      MinSentence <= |f.detail.sentence|
  {
    ClausesOfRules(o, t, docType, rules);
    forall f | f in ClausesOf(o, t, docType, rules)
      ensures MinSentence <= |f.detail.sentence|
    {
      SentenceShape(t, f.detail.sentence);
    }
  }

  /** A similar clause is reported with a confidence above 0.75 and, since
      the ratio is at most 1, at most 1. */
  lemma SimilarConfidence(o: Oracles, docType: DocType, rule: Rule, s: string, f: Finding)
    requires RatioInUnit(o)
    requires f in SentenceRuleClauses(o, docType, rule, s) && f.detail.SimilarClause?
    ensures Confidence(f).Some? && Threshold < Confidence(f).value <= 1.0
  {
    var ex :| ex in rule.exemplars && o.ratio(o.lower(s), o.lower(ex)) > Threshold &&
              f == Finding(rule.severity, SimilarClause(docType, rule, s, o.ratio(o.lower(s), o.lower(ex)) * 100.0));
  }

  /** A keyword hit is reported with confidence 0.90. */
  lemma KeywordConfidence(o: Oracles, docType: DocType, rule: Rule, s: string, f: Finding)
    requires f in SentenceRuleClauses(o, docType, rule, s) && f.detail.KeywordClause?
    ensures Confidence(f) == Some(KeywordSimilarity / 100.0)
  {
  }

  /** A keyword with an accented letter is never found in a sentence of the
      cleaned text, whatever the sentence. */
  lemma AccentedKeywordSilent(o: Oracles, docType: DocType, rule: Rule, s: string, kw: string, k: nat)
    requires LowerAddsNoAccents(o) && NoAccents(s)
    requires k < |kw| && IsAccented(kw[k])
    ensures KeywordHit(o, docType, rule, s, kw) == None
  {
    assert NoAccents(o.lower(s));
    MissingCharNotContained(o.lower(s), kw, k);
  }

  // ---------------------------------------------------------------------------
  // Short texts
  // ---------------------------------------------------------------------------

  lemma {:induction false} KeepShorter(s: string, p: char -> bool)
    ensures |Keep(s, p)| <= |s|
  {
    if |s| > 0 {
      KeepShorter(s[1..], p);
    }
  }

  lemma {:induction false} PieceWithinFlatten(parts: seq<string>, piece: string)
    requires piece in parts
    ensures |piece| <= |Flatten(parts)|
  {
    if parts[0] != piece {
      PieceWithinFlatten(parts[1..], piece);
    }
  }

  /** No sentence is longer than the text it comes from. */
  lemma SentencesWithinText(t: string)
    ensures forall s | s in Sentences(t) :: |s| <= |t|
  {
    SplitRunsKeepsText(t, IsSentenceEnd);
    KeepShorter(t, IsSentenceEnd);
    forall s | s in Sentences(t) ensures |s| <= |t| {
      var piece :| piece in SplitRuns(t, IsSentenceEnd) && SentenceOf(piece) == Some(s);
      PieceWithinFlatten(SplitRuns(t, IsSentenceEnd), piece);
    }
  }

  /** A text shorter than 15 characters yields no clause at all. */
  lemma ShortTextHasNoClauses(o: Oracles, t: string, docType: DocType)
    requires docType != Unknown && |t| < MinSentence
    ensures SimilarClauses(o, t, docType) == []
  {
    NoSentencesInShortText(t);
    NoSentencesNoClauses(o, t, docType, Config(docType).rules);
  }

  lemma NoSentencesInShortText(t: string)
    requires |t| < MinSentence
    ensures Sentences(t) == []
  {
    SentencesWithinText(t);
    if |Sentences(t)| > 0 {
      SentenceShape(t, Sentences(t)[0]);
      assert false;
    }
  }

  lemma NoSentencesNoClauses(o: Oracles, t: string, docType: DocType, rules: seq<Rule>)
    requires Sentences(t) == []
    ensures ClausesOf(o, t, docType, rules) == []
  {
  }
}
