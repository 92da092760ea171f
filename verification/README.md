# Contract-violation detector, modelled in Dafny

This project models the detection engine of `app.py`, the class
`SistemaDetecçãoAvancado`. The engine reads the plain text of a Brazilian
contract or invoice and works in five steps:

1. It cleans the text (`_limpar_texto_profundo`).
2. It classifies the text as a lease (`CONTRATO_LOCACAO`), an employment
   contract (`CONTRATO_EMPREGO`), an invoice (`NOTA_FISCAL`) or a service
   contract (`CONTRATO_PRESTACAO_SERVICOS`).
3. It extracts money amounts and dates.
4. It runs the numeric checks of the document's type, then the regex rules of
   the type's catalog entry, then a sentence-similarity pass over the same rules.
5. It scores the findings on a 0-100 compliance scale and a seven-rung risk
   ladder (`analisar_documento_completo`).

Modules, one per concern of the source:

| module | models |
|---|---|
| `Wrappers`, `Text`, `Seqs` | Option, Python string helpers (`in`, `count`, `strip`, `int()`, `replace`), and filter/flat-map over sequences |
| `Oracles` | Regex search, case and accent folding, and `SequenceMatcher.ratio`, taken as parameters |
| `Catalog` | The rule catalog `_carregar_padroes_completos`, as constant data |
| `Findings` | One variant per kind of finding the engine appends |
| `Normalize` | `_limpar_texto_profundo` |
| `Money` | `_extrair_valores_monetarios_completos`, `_identificar_tipo_valor`, and Python's `float()` on the literals they build |
| `Dates` | `_extrair_datas_completas`, `_identificar_tipo_data` |
| `Tagging` | The first-match-wins shape shared by the two taggers |
| `Cnpj` | `_validar_cnpj_avancado` |
| `Checks` | The salary, fine, deposit, working-hours, CNPJ and invoice-value checks |
| `RuleScan` | The regex pass with its ±150-character context window |
| `Similarity` | `_detectar_clausulas_similares_avancado` |
| `Classifier` | `_identificar_tipo_documento` |
| `Metrics` | `_calcular_metricas` |
| `Engine` | `analisar_documento_completo` |

The engine is parameterised by the catalog it holds, as `self.padroes` is.
`Catalog.Standard` is the catalog the constructor builds.

The model follows the code as written. In several places the code does not do
what its own comments and the system's documentation describe:

- **US amounts.** An amount written as "US$ 1,234.56" is read as 1.23456, not 1234.56. Its literal holds both separators, so it goes through the Brazilian rewrite (`Money.USAmountReadsShifted`). An amount of a million US dollars or more, written with cents ("1,000,000.00"), is dropped (`Money.USMillionsSkipped`). Without cents, "1,000,000" has no point and is read as 1000000.
- **Comma-only amounts.** An amount written with only a decimal comma, "950,00", is read as 95000 (`Money.BrazilianSmallAmountReadsAsCents`).
- **Short-year dates.** The DD/MM/YY date pattern also matches the first eight characters of a DD/MM/YYYY date. So "15/08/2023" also yields 15/08/2020 (`Dates.ShortYearReadsPrefix`).
- **Working hours.** The working-hours check does not read free text. It looks at the money amounts only. Its daily branch looks for "diária", which cannot occur in the cleaned text, so it never fires (`Engine.NoDailyHoursFinding`).
- **Raw text in the invoice checks.** The CNPJ and invoice-value checks read the raw text, not the cleaned one.
- **Service fallback.** The service-contract keyword fallback needs accented words. The cleaned text has none, so the fallback never answers "service" (`Classifier.FallbackNeverService`).
- **Dotted cents.** The invoice-value check drops every dot, so "1234.56" is read as 123456 (`Checks.DotCentsReadAsWhole`).

## Model

| member | source | states |
|---|---|---|
| Normalize.Clean | app.py:160-186 | Empty input gives the empty string. A non-empty result has no space at either end. |
| Normalize.CleanNormalized | app.py:182-186 | The cleaned text has plain spaces as its only whitespace, never two of them adjacent, and none at either end. |
| Normalize.CleanStripsAccents | app.py:177-180 | When the Unicode fold removes combining marks, no accented letter survives cleaning. |
| Normalize.CleanHasNoCapitals | app.py:177-186 | When the fold leaves no ASCII capital, the cleaned text has none. |
| Normalize.SqueezeIdempotent | app.py:182-186 | The whitespace passes leave text that is already in normal form unchanged. |
| Normalize.PdfPassIsIdentityAfterControls | app.py:165-175 | Every listed PDF artefact is a C1 control character that the first pass already deleted, so the replacement pass never changes anything. |
| Normalize.CollapseRuns | app.py:183-184 | Each maximal run of the class becomes one space. The result is no longer than the input, holds only spaces and characters of the input outside the class, starts as the input does, and has no two adjacent spaces when the class holds the space. |
| Normalize.CollapseRunsKeepsText | app.py:183 | With a class that holds the space, every character outside the class is kept, in order: the collapse rewrites only the class. |
| Normalize.Squeeze | app.py:182-186 | The whitespace passes leave text in normal form (single plain spaces, none at the ends), and every character of the result is a space or a character of the input. |
| Normalize.SqueezeKeepsText | app.py:182-186 | The whitespace passes rewrite whitespace only: every other character of the input is kept, in order. |
| Money.ParseFloatPoint | app.py:224 | `float()` reads digits, a point and digits as the integer part plus the fraction shifted by its length. |
| Money.TwoPointsFail | app.py:224-232 | A literal with two points does not parse, and the match is skipped. |
| Money.ReadBothSeparators | app.py:217-219 | A literal with both separators whose dots drop to digits, a comma and digits is read as those digits with the comma as the decimal point. |
| Money.ReadCommasOnly | app.py:220-222 | A literal with commas and no dot is read as its digits with the commas deleted. |
| Money.BrazilianRoundTrip | app.py:217-224 | An amount of at least R$ 1.000,00 written in Brazilian form ("1.234,56") is read back as exactly cents/100. |
| Money.BrazilianSmallAmountReadsAsCents | app.py:217-224 | An amount under 1000 written with only a decimal comma ("950,00") is read as its number of cents. The comma is taken for a thousands separator. |
| Money.USAmountReadsShifted | app.py:217-224 | A US amount between 1,000.00 and 999,999.99 is read as cents/100 divided by 1000 (cents/10^5). |
| Money.USMillionsSkipped | app.py:217-232 | A US amount of a million or more, written with cents, has two commas and is dropped: the literal does not parse. |
| Money.DotOnlyReadsAsDecimal | app.py:217-224 | "1.234" with no comma is passed to `float()` unchanged and read as 1.234. |
| Money.ParseMoneyLiteral | app.py:217-224 | Its properties are stated by `Money.ReadBothSeparators`, `Money.ReadCommasOnly`, `Money.DotOnlyReadsAsDecimal`, `Money.TwoPointsFail`, `Money.BrazilianRoundTrip` and `Money.USAmountReadsShifted`. |
| Money.TagValue | app.py:236-250 | Its property is stated by `Money.TagValueIsFirstMatch`. |
| Money.TagValueIsFirstMatch | app.py:236-250 | The value tagger is first-match-wins over its keyword rows (salary, rent, fine, deposit, fee), with "generic" as the default. |
| Money.MoneyFromMatch | app.py:213-232 | A match yields an amount exactly when its first group parses. The amount holds the parsed value (never negative), the whole matched text, the match offset and the tag of the matched text. |
| Money.ExtractMoney | app.py:188-234 | The amounts are exactly the parsed matches of the nine currency patterns, and none is negative. |
| Dates.Pad2 | app.py:303 | `{n:02d}`: decimal digits that read back as n, exactly two of them below 100. |
| Dates.FormatDateRoundTrip | app.py:303 | With day and month below 100, the canonical DD/MM/YYYY form reads back as the same day, month and year. |
| Dates.ExpandYear | app.py:299-300 | A two-digit year y lands in 1950..2049 and keeps y as its last two digits. A longer year is unchanged. |
| Dates.ExpandYearInverse | app.py:299-300 | On 1950..2049, expanding the last two digits of a year gives the year back. |
| Dates.MonthNumber | app.py:272-276 | A month name is read as a number from 1 to 12. A name outside the table is read as 1. |
| Dates.MonthKeysRead | app.py:272-276 | Every key of the month table is read as its own value, including March's two spellings. |
| Dates.MonthNameRoundTrip | app.py:272-276 | The full name of each month is read back as its number. |
| Dates.UnknownMonthIsJanuary | app.py:285 | A name not in the table, such as an English one, is read as January. |
| Dates.TagDateIsFirstMatch | app.py:313-325 | The date tagger is first-match-wins over its keyword rows (validity, signature, start, end), with "generic" as the default. |
| Dates.DateFields | app.py:280-300 | A match holding "de" is read as day, month name and year, with the year kept. Otherwise a four-character first group means year first, and anything else means day first with a two-digit year expanded. A date is read exactly when there are three groups (at least three in the "de" form) and the ones it uses are numbers. |
| Dates.DateFromMatch | app.py:280-309 | A match yields a date exactly when its fields parse. The date holds the canonical form of those fields, the matched text, the offset and the role tag. |
| Dates.DateFromMatchRoundTrip | app.py:299-306 | When the day and month read are below 100, the canonical form of an extracted date reads back as the fields it was built from. |
| Dates.NumericDateExample | app.py:280-306 | "05/03/2024" is extracted as the generic date 05/03/2024, which reads back as day 5, month 3, year 2024. |
| Dates.MonthNameDateExample | app.py:280-306 | "05 de marco de 2024" is extracted in the same canonical form, 05/03/2024. |
| Dates.ShortYearReadsPrefix | app.py:264 | The DD/MM/YY pattern reads the first eight characters of "15/08/2023" as 15/08/2020. |
| Dates.NumericDateIsGeneric | app.py:313-325 | A date written only with digits and slashes gets the generic role. |
| Dates.ExtractDates | app.py:252-311 | The dates are exactly the parsed matches of the seven date patterns. |
| Dates.TagDate | app.py:313-325 | Its properties are stated by `Dates.TagDateIsFirstMatch` (first match wins over the keyword rows) and `Dates.NumericDateIsGeneric`. |
| Cnpj.DigitsOf | app.py:838 | Stripping non-digits leaves only digits, is never longer than the input, and leaves a digit string unchanged. |
| Cnpj.CheckDigit | app.py:855-856 | A check digit is below 10. It is 0 exactly when the remainder mod 11 is below 2, and otherwise it brings the sum to a multiple of 11. |
| Cnpj.StandardWeights | app.py:847-868 | The counting-down weight with its wrap from 1 to 9 gives exactly 5432 98765432 for the first digit and 6543298765432 for the second. |
| Cnpj.ValidateCnpj | app.py:836-873 | The loop validator with its running weight agrees with the declarative predicate on every input. |
| Cnpj.ValidIffComplete | app.py:836-873 | A number passes exactly when its digits are twelve base digits followed by their two check digits, not all the same digit. |
| Cnpj.CompleteIsValid | app.py:836-873 | Any twelve digits completed with their check digits pass, unless the result repeats one digit. |
| Cnpj.IsValidCnpj | app.py:836-873 | Its properties are stated by `Cnpj.ValidateCnpj` (the loop agrees with it), `Cnpj.ValidIffComplete`, `Cnpj.CompleteIsValid`, `Cnpj.ZerosRefused` and the two digit-change lemmas. |
| Cnpj.FirstCheckDigitChangeDetected | app.py:846-859 | Changing the first check digit of a valid number makes it fail. |
| Cnpj.LastDigitChangeDetected | app.py:862-873 | Changing the last digit of a valid number makes it fail. |
| Cnpj.ZerosRefused | app.py:843-844 | Fourteen zeros have check digits that add up, and are still refused. |
| Cnpj.FormatCnpjRoundTrip | app.py:1023 | Stripping the punctuation of the written form NN.NNN.NNN/NNNN-NN gives the fourteen digits back. |
| Checks.SalaryCheck | app.py:905-920 | There is one critical finding per salary amount below R$ 1.412,00, and nothing else. |
| Checks.SalaryCheckAppend | app.py:910-918 | The salary findings follow the order of the amounts: a concatenation gives the findings of each part, in turn. |
| Checks.SalaryCheckSingle | app.py:910-918 | One amount gives exactly one finding when it is a salary under R$ 1.412,00, and none otherwise. |
| Checks.NumberBefore | app.py:929-931 | A month or hour count is read from the first group of the first match in the amount's text, and exactly that group's number: no match, or a group that is not a number, gives none. |
| Checks.FineCheck | app.py:922-941 | There is a critical finding for exactly the fine amounts whose text names more than 3 months, with that count. |
| Checks.DepositCheck | app.py:976-990 | There is a high finding for exactly the deposit amounts whose text names more than 3 months, with that count. |
| Checks.HoursFinding | app.py:997-1019 | A finding needs "hora" in the amount's text and carries the hour count read from it. More than 8 hours with "diária" gives a daily finding. Otherwise, more than 44 hours with "semanal" gives a weekly finding. Nothing else gives a finding. |
| Checks.HoursCheck | app.py:997-1019 | The hours findings are exactly the findings of the single amounts, and all are critical. |
| Checks.WeeklyHoursFound | app.py:998-1019 | An amount whose text names more than 44 weekly hours, without "diária", is reported as a weekly excess. |
| Checks.DailyHoursFound | app.py:998-1011 | An amount whose text names more than 8 hours with "diária" is reported as a daily excess. |
| Checks.DailyHoursNeedAccent | app.py:1004 | On text without accents, the only hours finding possible is the weekly one. |
| Checks.CnpjCheck | app.py:1021-1031 | Every CNPJ finding is critical and names an invalid CNPJ. |
| Checks.CnpjCheckExact | app.py:1021-1031 | The invoice check reports exactly the written CNPJs whose check digits fail, each critical and named by its text. |
| Checks.InvoiceValues | app.py:875-889 | The invoice amounts are exactly the parsed `valor ... NN,NN` matches, all non-negative. |
| Checks.ValuesCheck | app.py:891-903 | There is at most one finding, and it is high. |
| Checks.InvoiceValuesCheck | app.py:875-903 | The invoice check raises at most one finding, and it is high and reports inconsistent values. |
| Checks.ValuesCheckIffSpread | app.py:891-903 | On non-negative amounts, the finding is raised exactly when there are at least two and one is more than 1000 times another. |
| Checks.DotCentsReadAsWhole | app.py:884-886 | For any digits a and two digits b, "a.b" is read as the whole number of the digits a and b: the dot is dropped as a thousands separator, so "1234.56" is read as 123456. |
| RuleScan.ContextWindow | app.py:1044-1046 | The context is no longer than the text, and at most 150 characters wider than the match on each side. |
| RuleScan.ContextHoldsMatch | app.py:1044-1046 | The context window holds the matched text, at the match's offset from the window start. |
| RuleScan.FullWindow | app.py:1044-1046 | Away from the ends of the text, the window is exactly the match plus 150 characters on each side. |
| RuleScan.BelowFloor | app.py:1065-1072 | The minimum-wage note is set exactly for a rule whose id names "salario", whose match has a group, and whose group parses to less than 1412. The note is that value. |
| RuleScan.SalaryNoteIffBelowFloor | app.py:1065-1072 | For a Brazilian amount in the group, the note is set exactly when the amount is below R$ 1.412,00, and it holds that amount. |
| RuleScan.PatternFindings | app.py:1040-1074 | A pattern gives one finding per match, each built from that match. |
| RuleScan.ScanRuleList | app.py:1037-1073 | The regex pass gives exactly one finding per match of each pattern of each rule. Each finding has the rule's severity, confidence 0.95 and the document's type. |
| RuleScan.ScanRulesFromCatalog | app.py:1037-1073 | With the standard catalog, every regex finding names a rule of the document's type and has that rule's severity. |
| Similarity.Sentences | app.py:332-337 | The sentences examined are exactly the stripped pieces between runs of `.;!?` that are at least 15 characters long. |
| Similarity.SentencesHaveNoDelimiters | app.py:332 | No examined sentence holds a delimiter. |
| Similarity.SentenceRuleClauses | app.py:339-363 | A sentence gives a clause for each exemplar whose ratio exceeds 0.75, with the ratio times 100, and one for each keyword it contains. |
| Similarity.ClausesOf | app.py:327-365 | The clauses are exactly those of the sentences examined, against every rule. |
| Similarity.ClausesOfRules | app.py:339-363 | Every clause has one of the rules given, that rule's severity and an examined sentence. |
| Similarity.ClausesQuoteLongSentences | app.py:1075-1095 | Every clause finding is a similar-clause or keyword finding for the document's type. It names one of the rules given, has that rule's severity, and quotes a sentence of at least 15 characters. |
| Similarity.SimilarConfidence | app.py:344-349 | A similar clause is reported with a confidence above 0.75 and at most 1. |
| Similarity.KeywordConfidence | app.py:355-363 | A keyword clause is reported with confidence 0.90. |
| Similarity.AccentedKeywordSilent | app.py:356 | A keyword holding an accented letter is never found in a sentence of the cleaned text. |
| Similarity.ShortTextHasNoClauses | app.py:336-337 | A text shorter than 15 characters gives no clause. |
| Classifier.Scores | app.py:1107-1128 | Each catalog type gets its score, in catalog order. |
| Classifier.FirstArgMax | app.py:1131 | The result is the first position of the largest score. |
| Classifier.Classify | app.py:1103-1147 | If some score reaches 5, the answer is the first type with the highest score. Otherwise it is the keyword fallback's answer. |
| Classifier.Fallback | app.py:1136-1147 | Its properties are stated by `Classifier.Classify`, `Classifier.FallbackNeverService` and `Classifier.FallbackOnCleanText`. |
| Classifier.FallbackNeverService | app.py:1144-1145 | On text without accents, the fallback never answers "service contract". |
| Classifier.LeaseVocabularyWithoutAccents | app.py:1116-1118 | On text without accents, the lease vocabulary scores only through "aluguel", "inquilino" and "fiador". |
| Classifier.EmploymentVocabularyOnCleanText | app.py:1120-1122 | On text without accents or capitals, the employment vocabulary scores only through "empregado", "empregador", "carteira" and "horas extras". |
| Classifier.InvoiceVocabularyOnCleanText | app.py:1124-1126 | On text without accents or capitals, the invoice vocabulary scores only through "chave acesso", "protocolo" and "emitente". |
| Classifier.FallbackOnCleanText | app.py:1136-1147 | On text without accents or capitals, the fallback is decided by its plain lower-case words alone: "NFe" and "locação" never fire, and neither does the service branch. |
| Classifier.ServiceScoresByMarkers | app.py:1116-1128 | The service contract gets no vocabulary bonus: its score is its marker score. |
| Metrics.ComplianceScore | app.py:1156-1161 | The score is 100 minus the weighted penalty while that stays positive, and 0 from there on. It never exceeds 100. |
| Metrics.Risk | app.py:1163-1184 | Each of the seven tiers is reached by exactly the counts its rung names, read top-down, including the "3 or more" against "more than 0" boundary. |
| Metrics.ComputeMetrics | app.py:1149-1195 | The three severity counts add up to the total. The score is 100 and the risk is "regular" exactly when there are no findings. |
| Metrics.SeveritiesPartition | app.py:1151-1154 | Every finding counts under exactly one severity. |
| Metrics.NoCriticalMetrics | app.py:1151-1152 | The critical count is 0 exactly when no finding is critical. |
| Metrics.EmptyMetrics | app.py:1149-1195 | No findings give score 100, zero counts and "regular". |
| Metrics.MetricsAppend | app.py:1151-1161 | Counts add over concatenation, and adding findings never raises the score. |
| Metrics.ScoreAntitone | app.py:1156-1161 | Raising any count never raises the score. |
| Metrics.CriticalBoundaries | app.py:1156-1172 | Critical findings alone: one gives 60 and "critical risk detected", two give 20 and "high risk", three or more give 0 and "emergency". |
| Metrics.SmallListsNeedOnlyAdjustments | app.py:1173-1181 | One or two findings, none critical and fewer than two high, give "adjustments recommended", never "attention needed". |
| Engine.LeaseChecks | app.py:967-990 | Every lease check finding is one the lease branch can produce. |
| Engine.EmploymentChecks | app.py:992-1019 | Every employment check finding is one the employment branch can produce. |
| Engine.InvoiceChecks | app.py:1021-1034 | Every invoice check finding is one the invoice branch can produce. |
| Engine.TypeChecksFromType | app.py:966-1034 | No numeric check runs outside the branch of its document type. |
| Engine.Analyze | app.py:943-1101 | Its properties are stated by the `Engine` lemmas below: `Engine.AnalyzeMetrics`, `Engine.ShortTextNotAnalysed`, `Engine.LongTextClassified`, `Engine.UnknownTypeNotAnalysed`, `Engine.KnownTypeChecklist`, `Engine.KnownTypeFindings`, `Engine.FindingsAttributed`, `Engine.LowWageReported` and `Engine.ExcessWeeklyHoursReported`. |
| Engine.AnalyzeMetrics | app.py:1097-1101 | The metrics returned are always those of the findings returned. |
| Engine.ShortTextNotAnalysed | app.py:947-951 | A cleaned text under 100 characters gives no findings, the unknown type, no checklist and the metrics of no findings. |
| Engine.LongTextClassified | app.py:953-954 | A long enough text gets the type the classifier gives its cleaned form. |
| Engine.UnknownTypeNotAnalysed | app.py:956-957 | A text of no known type gets nothing but the metrics of no findings. |
| Engine.KnownTypeChecklist | app.py:1101 | A text of a known type gets that type's checklist. |
| Engine.CleanTextVocabulary | app.py:948-954 | When the fold removes accents and capitals, the classifier of the cleaned text answers "invoice" by fallback exactly on "nota fiscal" or "chave acesso", never answers "service contract" by fallback, and scores employment and invoice vocabulary only through their plain words. |
| Engine.KnownTypeFindings | app.py:959-1095 | With the standard catalog, the findings are the type's checks, then the regex pass over the cleaned text, then the similarity pass, in that order. |
| Engine.FindingsAttributed | app.py:959-1095 | Every finding is attributed to the document's type: a check of that type, or a rule of that type with the rule's own severity. |
| Engine.StandardFindingsFromCatalog | app.py:1037-1095 | With the standard catalog, every rule-driven finding names a catalog rule of the document's type, and no finding is promoted above its rule's severity. |
| Engine.LowWageReported | app.py:967-996 | In a lease or employment text, every salary amount below R$ 1.412,00 is reported as a critical finding. The document is then rated at "critical risk detected" or worse. |
| Engine.ExcessWeeklyHoursReported | app.py:992-1019 | In an employment text, an amount read from the cleaned text that names more than 44 weekly hours is reported as a critical finding, and the document is rated at "critical risk detected" or worse. |
| Engine.CriticalFindingRaisesRisk | app.py:1164-1172 | One critical finding is enough to reach the critical rungs of the ladder. |
| Engine.NoDailyHoursFinding | app.py:992-1019 | The daily-hours finding never appears: it needs "diária" in an amount read from the cleaned text, which has no accents. |

## Left out

- Regular expressions, `str.lower`, NFKD folding and `SequenceMatcher.ratio` are parameters of the model (`Oracles`), not implemented. Only the facts the lemmas need are assumed of them, each as a named precondition:
  - spans within the text;
  - the fold strips accents;
  - lower-casing adds no accents;
  - the fold leaves no ASCII capital (see below);
  - the ratio lies in [0, 1].
- Floating point: `float()` is modelled with exact reals. Amounts are stated through a decimal shift, so binary rounding is not modelled.
- Only ASCII digits are modelled. Python's `\d` and `int()` also accept other Unicode decimal digits.
- That the cleaned text holds no ASCII capital is assumed, not proved: it is the precondition `FoldLeavesNoCapitals` of `Normalize.CleanHasNoCapitals` and `Engine.CleanTextVocabulary`. Lower-casing removes ordinary capitals, but NFKD turns compatibility characters such as the double-struck capitals into ASCII capitals after lower-casing has run. So "FGTS", "CLT" or "NFe" can occur in cleaned text built from such characters.
- The fine, deposit and hours checks take `int()` of a `\d+` group outside any `try`. A failure there, which cannot happen with a correct regex engine, is modelled as no finding instead of an exception.
- Dates.DateFields: in the numeric branch, a match without exactly three groups would reuse the day, month and year of an earlier match, or raise. Every date pattern has three groups, so the model drops such a match.
- Dates.DateFromMatchRoundTrip: stated only when the day and the month read are below 100. A larger day or month is written with more than two digits, and the canonical form then no longer has its slashes at fixed places.
- The fine, deposit and hours checks are modelled as written, but with the real currency patterns the matched text ends at the amount or at "reais". So it rarely names months or hours. That depends on the regex engine and is not proved.
- Money.USAmountReadsShifted: stated only for amounts from 1,000.00 to 999,999.99. Below 1,000 there is no comma, and the literal is read as written. From a million up, an amount written with cents is dropped, as `Money.USMillionsSkipped` states.
- Engine.NoDailyHoursFinding: stated for known types. A text of unknown type has no findings at all (`Engine.UnknownTypeNotAnalysed`).
- The extracted dates are computed by `analisar_documento_completo` but never used in its result. They are modelled (`Dates.ExtractDates`) and not wired into `Engine.Analyze`.
- The call counter `contador_analises` and the unused `cache_deteccoes` are left out. They never influence the result.
- The lease entry's `verificacoes_automaticas` list is left out of `Catalog`. The engine never reads it.
- The display strings built around each finding are reduced to the data they are built from:
  - names with emoji prefixes;
  - "R$ ..." descriptions;
  - `nivel_confianca`.
  `FindingId` and `Confidence` keep the id and the confidence.
- The display labels and colours of the risk tiers are kept as constants (`Metrics.RiskLabel`, `Metrics.RiskColor`) without properties.
- The Streamlit screens, the PDF text extraction, the `SistemaCriptografia` helper class and the CSV export are not part of this model. None of them is called by the engine.
