/** Metrics and the risk ladder (`_calcular_metricas`, app.py:1149-1195): a pure
    function of the findings list. */
module Metrics {
  import opened Catalog
  import opened Findings

  /** The `nivel_risco` tiers, top to bottom of the ladder. */
  datatype RiskLevel =
    | Emergency
    | HighRiskUrgent
    | CriticalRiskDetected
    | ElevatedRisk
    | AttentionNeeded
    | AdjustmentsRecommended
    | Regular

  datatype Metrics = Metrics(total: nat, critical: nat, high: nat, medium: nat, score: nat, risk: RiskLevel)

  function RiskLabel(r: RiskLevel): string {
    match r
    case Emergency => "🚨 EMERGÊNCIA - DOCUMENTO PERIGOSO"
    case HighRiskUrgent => "🚨 ALTO RISCO - URGENTE"
    case CriticalRiskDetected => "⚠️ RISCO CRÍTICO DETECTADO"
    case ElevatedRisk => "🔴 RISCO ELEVADO"
    case AttentionNeeded => "🟡 ATENÇÃO NECESSÁRIA"
    case AdjustmentsRecommended => "📋 AJUSTES RECOMENDADOS"
    case Regular => "✅ DOCUMENTO REGULAR"
  }

  /** The `cor_risco` colour shown with each tier. */
  function RiskColor(r: RiskLevel): string {
    match r
    case Emergency => "#ff0000"
    case HighRiskUrgent => "#ff4444"
    case CriticalRiskDetected => "#ff6666"
    case ElevatedRisk => "#ff9933"
    case AttentionNeeded => "#ffcc00"
    case AdjustmentsRecommended => "#33aa33"
    case Regular => "#008800"
  }

  /** The number of findings of severity `s`. */
  function CountSeverity(fs: seq<Finding>, s: Severity): nat {
    if |fs| == 0 then 0
    else (if fs[0].severity == s then 1 else 0) + CountSeverity(fs[1..], s)
  }

  /** Counting over a concatenation adds the counts. */
  lemma {:induction false} CountSeverityAppend(a: seq<Finding>, b: seq<Finding>, s: Severity)
    ensures CountSeverity(a + b, s) == CountSeverity(a, s) + CountSeverity(b, s)
  {
    if |a| == 0 {
      assert a + b == b;
    } else {
      assert (a + b)[1..] == a[1..] + b;
      CountSeverityAppend(a[1..], b, s);
    }
  }

  /** Every finding has exactly one of the three severities, so the three
      counts add up to the total. */
  lemma {:induction false} SeveritiesPartition(fs: seq<Finding>)
    ensures CountSeverity(fs, Critical) + CountSeverity(fs, High) + CountSeverity(fs, Medium) == |fs|
  {
    if |fs| > 0 {
      SeveritiesPartition(fs[1..]);
    }
  }

  /** `max(0, 100 - 40*critical - 20*high - 10*medium)`, described by its two
      regimes: the penalty is subtracted while it stays below 100, and the
      score floors at 0 from there on. */
  function ComplianceScore(critical: nat, high: nat, medium: nat): (r: nat)
    ensures r <= 100
    ensures 40 * critical + 20 * high + 10 * medium < 100 ==> r + 40 * critical + 20 * high + 10 * medium == 100
    ensures 40 * critical + 20 * high + 10 * medium >= 100 ==> r == 0
  {
    var penalty := 40 * critical + 20 * high + 10 * medium;
    if penalty >= 100 then 0 else 100 - penalty
  }

  /** The risk ladder, read top-down with the first matching rung winning.
      The contract gives each tier the exact counts that reach it. */
  function Risk(critical: nat, high: nat, total: nat): (r: RiskLevel)
    ensures r == Emergency <==> critical >= 3
    ensures r == HighRiskUrgent <==> critical == 2
    ensures r == CriticalRiskDetected <==> critical == 1
    ensures r == ElevatedRisk <==> critical == 0 && high >= 2
    ensures r == AttentionNeeded <==> critical == 0 && high < 2 && total >= 3
    ensures r == AdjustmentsRecommended <==> critical == 0 && high < 2 && 0 < total < 3
    ensures r == Regular <==> critical == 0 && high < 2 && total == 0
  {
    if critical >= 3 then Emergency
    else if critical >= 2 then HighRiskUrgent
    else if critical >= 1 then CriticalRiskDetected
    else if high >= 2 then ElevatedRisk
    else if total >= 3 then AttentionNeeded
    else if total > 0 then AdjustmentsRecommended
    else Regular
  }

  /** `_calcular_metricas`. */
  function ComputeMetrics(fs: seq<Finding>): (r: Metrics)
    ensures r.total == |fs| == r.critical + r.high + r.medium
    ensures r.score <= 100
    ensures r.score == 100 <==> |fs| == 0
    ensures r.risk == Regular <==> |fs| == 0
  {
    var c := CountSeverity(fs, Critical);
    var h := CountSeverity(fs, High);
    var m := CountSeverity(fs, Medium);
    SeveritiesPartition(fs);
    Metrics(|fs|, c, h, m, ComplianceScore(c, h, m), Risk(c, h, |fs|))
  }

  /** The critical count is 0 exactly when no finding is critical. */
  lemma NoCriticalMetrics(fs: seq<Finding>)
    ensures (forall i | 0 <= i < |fs| :: fs[i].severity != Critical) <==> ComputeMetrics(fs).critical == 0
  {
    NoCriticalIffZero(fs);
  }

  lemma {:induction false} NoCriticalIffZero(fs: seq<Finding>)
    ensures (forall i | 0 <= i < |fs| :: fs[i].severity != Critical) <==> CountSeverity(fs, Critical) == 0
  {
    if |fs| > 0 {
      NoCriticalIffZero(fs[1..]);
      assert forall i | 1 <= i < |fs| :: fs[i] == fs[1..][i - 1];
    }
  }

  /** An empty findings list scores 100 and is regular. */
  lemma EmptyMetrics()
    ensures ComputeMetrics([]) == Metrics(0, 0, 0, 0, 100, Regular)
  {
  }

  /** More findings never raise the score: the metrics of a concatenation
      add the counts and score no higher than either part. */
  lemma MetricsAppend(a: seq<Finding>, b: seq<Finding>)
    ensures ComputeMetrics(a + b).critical == ComputeMetrics(a).critical + ComputeMetrics(b).critical
    ensures ComputeMetrics(a + b).high == ComputeMetrics(a).high + ComputeMetrics(b).high
    ensures ComputeMetrics(a + b).medium == ComputeMetrics(a).medium + ComputeMetrics(b).medium
    ensures ComputeMetrics(a + b).score <= ComputeMetrics(a).score
    ensures ComputeMetrics(a + b).score <= ComputeMetrics(b).score
  {
    CountSeverityAppend(a, b, Critical);
    CountSeverityAppend(a, b, High);
    CountSeverityAppend(a, b, Medium);
    var ma, mb, mab := ComputeMetrics(a), ComputeMetrics(b), ComputeMetrics(a + b);
    ScoreAntitone(ma.critical, ma.high, ma.medium, mab.critical, mab.high, mab.medium);
    ScoreAntitone(mb.critical, mb.high, mb.medium, mab.critical, mab.high, mab.medium);
  }

  /** Raising any count never raises the score. */
  lemma ScoreAntitone(c: nat, h: nat, m: nat, c': nat, h': nat, m': nat)
    requires c <= c' && h <= h' && m <= m'
    ensures ComplianceScore(c', h', m') <= ComplianceScore(c, h, m)
  {
  }

  /** The scoring boundaries for critical findings alone: one gives 60 and
      "critical risk detected", two give 20 and "high risk", three floor the
      score at 0 and raise an emergency. */
  lemma CriticalBoundaries(fs: seq<Finding>)
    requires forall i | 0 <= i < |fs| :: fs[i].severity == Critical
    ensures |fs| == 1 ==> ComputeMetrics(fs).score == 60 && ComputeMetrics(fs).risk == CriticalRiskDetected
    ensures |fs| == 2 ==> ComputeMetrics(fs).score == 20 && ComputeMetrics(fs).risk == HighRiskUrgent
    ensures |fs| >= 3 ==> ComputeMetrics(fs).score == 0 && ComputeMetrics(fs).risk == Emergency
  {
    AllCritical(fs);
  }

  lemma {:induction false} AllCritical(fs: seq<Finding>)
    requires forall i | 0 <= i < |fs| :: fs[i].severity == Critical
    ensures CountSeverity(fs, Critical) == |fs|
  {
    if |fs| > 0 {
      AllCritical(fs[1..]);
    }
  }

  /** With no critical finding and fewer than two high ones, a list of one or
      two findings is "adjustments recommended", never "attention needed". */
  lemma SmallListsNeedOnlyAdjustments(fs: seq<Finding>)
    requires 0 < |fs| < 3
    requires forall i | 0 <= i < |fs| :: fs[i].severity != Critical
    requires CountSeverity(fs, High) < 2
    ensures ComputeMetrics(fs).risk == AdjustmentsRecommended
  {
    NoCriticalIffZero(fs);
  }
}
